/** Every JSON text is read as what it means: numbers in any form, strings in any spelling, arrays and objects with
    any white space around their parts. The texts and their meaning are those of RFC 8259. */
module ConfigDocuments {
  import opened ConfigText
  import opened ConfigGrammar
  import opened ConfigNumbers
  import opened ConfigRoundTrip
  import opened ConfigSpelling

  // ---- Numbers --------------------------------------------------------------------------------------------

  type Dec = n: nat | n < 10

  function DigitsText(ds: seq<Dec>): string {
    if ds == [] then [] else ["0123456789"[ds[0]]] + DigitsText(ds[1..])
  }

  function Number(ds: seq<Dec>): nat {
    if ds == [] then 0 else 10 * Number(ds[..|ds| - 1]) + ds[|ds| - 1]
  }

  datatype Exponent = NoExponent | Exponent(letter: char, sign: string, digits: seq<Dec>)

  /** Section 6 of RFC 8259. Without a fraction `fraction` is empty. */
  datatype Numeral = Numeral(negative: bool, digits: seq<Dec>, fraction: seq<Dec>, exponent: Exponent)
  {
    predicate Valid() {
      && digits != [] && (digits[0] == 0 ==> |digits| == 1)
      && (exponent.Exponent? ==> exponent.letter in {'e', 'E'} && exponent.sign in {"", "+", "-"} && exponent.digits != [])
    }

    function Whole(): string {
      (if negative then "-" else "") + DigitsText(digits)
    }

    function Behind(): string {
      (if fraction == [] then "" else "." + DigitsText(fraction)) +
      (if exponent.NoExponent? then "" else [exponent.letter] + exponent.sign + DigitsText(exponent.digits))
    }

    function Text(): string {
      Whole() + Behind()
    }

    /** An integer if there is neither fraction nor exponent and 64 bits hold it; a float otherwise. */
    function Meaning(): Value {
      var n: int := if negative then 0 - Number(digits) else Number(digits);
      if fraction == [] && exponent.NoExponent? && -9223372036854775808 <= n <= 9223372036854775807 then Int(n) else Float(Text())
    }
  }

  // ---- Documents ------------------------------------------------------------------------------------------

  /** A JSON text, as it is written: `inside` is white space behind an opening bracket or brace. */
  datatype Doc =
    | JNull
    | JBool(b: bool)
    | JNumber(n: Numeral)
    | JString(ps: seq<Piece>)
    | JArray(inside: string, items: seq<Item>)
    | JObject(inside: string, members: seq<Member>)

  datatype Item = Item(before: string, doc: Doc, after: string)

  datatype Member = Member(before: string, key: seq<Piece>, afterKey: string, beforeValue: string, doc: Doc, after: string)

  /** The text of `d` with `tail` behind it. */
  function DocText(d: Doc, tail: string): string
    decreases d, 0
  {
    match d
    case JNull => "null" + tail
    case JBool(b) => (if b then "true" else "false") + tail
    case JNumber(n) => n.Text() + tail
    case JString(ps) => "\"" + ConfigSpelling.Text(ps) + "\"" + tail
    case JArray(inside, items) => "[" + (inside + ItemsOf(items, "]" + tail))
    case JObject(inside, members) => "{" + (inside + MembersOf(members, "}" + tail))
  }

  function ItemsOf(items: seq<Item>, tail: string): string
    decreases items, 1
  {
    if items == [] then tail else items[0].before + DocText(items[0].doc, items[0].after + MoreItems(items, tail))
  }

  function MoreItems(items: seq<Item>, tail: string): string
    requires items != []
    decreases items, 0
  {
    if |items| == 1 then tail else "," + ItemsOf(items[1..], tail)
  }

  function MembersOf(members: seq<Member>, tail: string): string
    decreases members, 1
  {
    if members == [] then tail else members[0].before + MemberRun(members, tail)
  }

  /** The text from the first key on. */
  function MemberRun(members: seq<Member>, tail: string): string
    requires members != []
    decreases members, 0
  {
    var m := members[0];
    "\"" + ConfigSpelling.Text(m.key) + "\"" +
    (m.afterKey + (":" + (m.beforeValue + DocText(m.doc, m.after + if |members| == 1 then tail else "," + MembersOf(members[1..], tail)))))
  }

  /** Is it a JSON text the parser is meant to take? White space is blanks, tabs and ends of lines; a carriage return
      alone is not; and between key and colon it is an option. */
  predicate Proper(o: Options, d: Doc) {
    match d
    case JNumber(n) => n.Valid()
    case JString(ps) => AllAllowed(o, ps)
    case JArray(inside, items) => White(inside) && forall x :: x in items ==> White(x.before) && White(x.after) && Proper(o, x.doc)
    case JObject(inside, members) =>
      White(inside) && forall m :: m in members ==> ProperMember(o, m) && Proper(o, m.doc)
    case _ => true
  }

  predicate ProperMember(o: Options, m: Member) {
    && White(m.before) && White(m.afterKey) && White(m.beforeValue) && White(m.after)
    && AllAllowed(o, m.key) && (m.afterKey == "" || o.allowSpaceBeforeColon)
  }

  /** The tree that a text means; the keys of an object must differ. */
  predicate Means(d: Doc, v: Value) {
    match d
    case JNull => v == Null
    case JBool(b) => v == Bool(b)
    case JNumber(n) => v == n.Meaning()
    case JString(ps) => v.Str? && Spells(ps, v.s)
    case JArray(_, items) => v.Array? && |v.items| == |items| && forall i :: 0 <= i < |items| ==> Means(items[i].doc, v.items[i])
    case JObject(_, members) =>
      && v.Object? && |v.entries| == |members| && UniqueKeys(v.entries)
      && forall i :: 0 <= i < |members| ==> Spells(members[i].key, v.entries[i].key) && Means(members[i].doc, v.entries[i].value)
  }

  // ---- Numbers are read -----------------------------------------------------------------------------------

  lemma {:induction false} DigitsAre(ds: seq<Dec>)
    ensures |DigitsText(ds)| == |ds| && AllDigits(DigitsText(ds))
    ensures ds != [] ==> (DigitsText(ds)[0] == '0' <==> ds[0] == 0)
    decreases |ds|
  {
    if ds != [] {
      DigitsAre(ds[1..]);
      DecIs(ds[0]);
    }
  }

  lemma DecIs(d: Dec)
    ensures IsDigit("0123456789"[d]) && DigitOf("0123456789"[d]) == d
  {
    assert "0123456789"[d] as int == '0' as int + d;
  }

  lemma {:induction false} DigitsSnoc(ds: seq<Dec>, d: Dec)
    ensures DigitsText(ds + [d]) == DigitsText(ds) + ["0123456789"[d]]
    decreases |ds|
  {
    if ds == [] {
      assert ds + [d] == [d] && [d][1..] == [];
    } else {
      DigitsSnoc(ds[1..], d);
      assert (ds + [d])[1..] == ds[1..] + [d];
    }
  }

  lemma {:induction false} NumberIs(ds: seq<Dec>)
    ensures AllDigits(DigitsText(ds)) && Denotes(DigitsText(ds)) == Number(ds)
    decreases |ds|
  {
    if ds == [] {
      ZeroDenotes();
    } else {
      hide Denotes, DigitsText;
      var front, d := ds[..|ds| - 1], ds[|ds| - 1];
      assert ds == front + [d];
      NumberIs(front);
      DigitsSnoc(front, d);
      DecIs(d);
      DenotesSnoc(DigitsText(front), "0123456789"[d]);
    }
  }

  lemma Behind(s: string, q: nat, k: nat)
    requires q + k <= |s|
    ensures s[q..][k..] == s[q + k..] && Peek(s[q..], k) == Peek(s, q + k)
  {
  }

  /** Where an exponent stands, the reader of floats takes it to its end. */
  lemma ExponentTaken(s: string, q: nat, x: Exponent, suf: string)
    requires x.Exponent? ==> x.letter in {'e', 'E'} && x.sign in {"", "+", "-"} && x.digits != []
    requires q <= |s| && s[q..] == ExponentText(x) + suf && Follows(suf)
    ensures AfterFraction(s, q) == q + |ExponentText(x)|
  {
    Behind(s, q, 0);
    if x.Exponent? {
      var ds := DigitsText(x.digits);
      NumberIs(x.digits);
      DigitsAre(x.digits);
      DigitsOf(ds, suf);
      hide DigitsText, Number, Denotes, Digits;
      ExponentLooks(x.letter, x.sign, ds, suf);
      Behind(s, q, 1);
      Behind(s, q, 1 + |x.sign|);
    } else {
      assert s[q..] == suf;
    }
  }

  lemma ExponentLooks(letter: char, sign: string, ds: string, suf: string)
    requires sign in {"", "+", "-"} && AllDigits(ds) && ds != ""
    ensures var t := [letter] + sign + ds + suf;
            t[0] == letter && (IsSign(t[1]) <==> sign != "") && t[1 + |sign|..] == ds + suf
  {
    var t := [letter] + sign + ds + suf;
    assert t[1] == if sign == "" then ds[0] else sign[0];
  }

  function ExponentText(x: Exponent): string {
    if x.NoExponent? then "" else [x.letter] + x.sign + DigitsText(x.digits)
  }

  function FractionText(ds: seq<Dec>): string {
    if ds == [] then "" else "." + DigitsText(ds)
  }

  /** What strtod does behind the whole digits. */
  function AfterWhole(s: string, p: nat): (q: nat)
    requires p <= |s|
    ensures q <= |s|
  {
    if Peek(s, p) == '.' && p < |s| then p + 1 + |Digits(s[p + 1..])| else p
  }

  /** What strtod does behind the fraction. */
  function AfterFraction(s: string, q: nat): nat
    requires q <= |s|
  {
    if Peek(s, q) != 'e' && Peek(s, q) != 'E' then q
    else
      var x := if IsSign(Peek(s, q + 1)) then q + 2 else q + 1;
      var ex := Digits(s[x..]);
      if ex == [] then q else x + |ex|
  }

  /** strtod: digits, a fraction, an exponent. */
  lemma StrtodIs(s: string, signed: nat, ds: string)
    requires signed <= |s| && Digits(s[signed..]) == ds && ds != "" && signed == if IsSign(Peek(s, 0)) then 1 else 0
    ensures var p := signed + |ds|;
            p <= |s| && StrtodLength(s) == AfterFraction(s, AfterWhole(s, p))
  {
    hide Digits;
  }

  lemma PartsTaken(s: string, signed: nat, ds: string, fraction: seq<Dec>, x: Exponent, suf: string)
    requires signed <= |s| && Digits(s[signed..]) == ds && ds != "" && signed == if IsSign(Peek(s, 0)) then 1 else 0
    requires (x.Exponent? ==> x.letter in {'e', 'E'} && x.sign in {"", "+", "-"} && x.digits != []) && Follows(suf)
    requires signed + |ds| <= |s| && s[signed + |ds|..] == FractionText(fraction) + (ExponentText(x) + suf)
    requires fraction != [] <==> Peek(s, signed + |ds|) == '.'
    ensures StrtodLength(s) == signed + |ds| + |FractionText(fraction)| + |ExponentText(x)|
  {
    hide AfterWhole, AfterFraction, StrtodLength, Digits, FractionText, ExponentText, Follows;
    var p, f := signed + |ds|, FractionText(fraction);
    StrtodIs(s, signed, ds);
    FractionTaken(s, p, fraction, x, suf);
    Tailed(f, ExponentText(x) + suf);
    Behind(s, p, |f|);
    ExponentTaken(s, p + |f|, x, suf);
  }

  /** Digits, a fraction and an exponent are taken as a whole. */
  lemma NumeralTaken(n: Numeral, suf: string)
    requires n.Valid() && Follows(suf)
    ensures StrtodLength(n.Text() + suf) == |n.Text()|
  {
    hide StrtodLength, Digits, DigitsText, Number, Denotes, FractionText, ExponentText, Follows;
    var sign, ds, tail := if n.negative then "-" else "", DigitsText(n.digits), FractionText(n.fraction) + (ExponentText(n.exponent) + suf);
    NumberIs(n.digits);
    DigitsAre(n.digits);
    TailFront(n, suf);
    NumeralText(n, suf);
    SignedDigits(sign, ds, tail);
    Tailed(sign + ds, tail);
    PartsTaken(sign + ds + tail, |sign|, ds, n.fraction, n.exponent, suf);
  }

  lemma Tailed(a: string, b: string)
    ensures (a + b)[|a|..] == b && Peek(a + b, |a|) == Peek(b, 0)
  {
  }

  lemma NumeralText(n: Numeral, suf: string)
    ensures n.Text() + suf == (if n.negative then "-" else "") + DigitsText(n.digits) + (FractionText(n.fraction) + (ExponentText(n.exponent) + suf))
    ensures |n.Text()| == |if n.negative then "-" else ""| + |DigitsText(n.digits)| + |FractionText(n.fraction)| + |ExponentText(n.exponent)|
  {
    hide DigitsText;
    assert n.Behind() == FractionText(n.fraction) + ExponentText(n.exponent);
  }

  lemma FractionTaken(s: string, p: nat, fraction: seq<Dec>, x: Exponent, suf: string)
    requires p <= |s| && s[p..] == FractionText(fraction) + (ExponentText(x) + suf) && (x.Exponent? ==> x.letter in {'e', 'E'}) && Follows(suf)
    requires fraction != [] <==> Peek(s, p) == '.'
    ensures AfterWhole(s, p) == p + |FractionText(fraction)|
  {
    hide ExponentText, Digits, DigitsText;
    if fraction != [] {
      var fd, more := DigitsText(fraction), ExponentText(x) + suf;
      NumberIs(fraction);
      DigitsAre(fraction);
      ExponentFront(x, suf);
      DigitsOf(fd, more);
      Behind(s, p, 1);
      PointThen(fd, more);
    }
  }

  lemma PointThen(fd: string, more: string)
    ensures ("." + fd + more)[1..] == fd + more
  {
  }

  lemma ExponentFront(x: Exponent, suf: string)
    requires (x.Exponent? ==> x.letter in {'e', 'E'}) && Follows(suf)
    ensures var t := ExponentText(x) + suf; !IsDigit(Peek(t, 0)) && Peek(t, 0) != '.' && (x.Exponent? ==> t[0] == x.letter)
  {
    var t := ExponentText(x) + suf;
    if x.Exponent? { assert t[0] == x.letter; } else { assert t == suf; }
  }

  /** What stands behind the digits. */
  lemma TailFront(n: Numeral, suf: string)
    requires n.Valid() && Follows(suf)
    ensures var tail := FractionText(n.fraction) + (ExponentText(n.exponent) + suf);
            && !IsDigit(Peek(tail, 0))
            && (n.fraction != [] <==> Peek(tail, 0) == '.')
            && (FractionOrExponent(tail) <==> n.fraction != [] || n.exponent.Exponent?)
            && (n.fraction == [] && n.exponent.NoExponent? ==> tail == suf)
  {
    var tail := FractionText(n.fraction) + (ExponentText(n.exponent) + suf);
    ExponentFront(n.exponent, suf);
    if n.fraction != [] { assert tail[0] == '.'; } else { assert tail == ExponentText(n.exponent) + suf; }
  }

  lemma FloatGoes(o: Options, negative: bool, ds: string, tail: string)
    requires AllDigits(ds) && ds != [] && FractionOrExponent(tail)
    ensures ParseFiniteNumber(o, Sign(negative) + ds + tail) == ParseFloat(Sign(negative) + ds + tail)
  {
    hide ParseInt, ParseFloat, CompareDigits, MaxIntDigits, Digits;
    var s, t := Sign(negative) + ds + tail, ds + tail;
    assert negative ==> s[1..] == t;
    assert !negative ==> s == t;
    assert t[0] == ds[0] && Peek(t, |ds|) == Peek(tail, 0);
    assert |t| >= 2 ==> t[1] == if |ds| >= 2 then ds[1] else Peek(tail, 0);
    DigitsOf(ds, tail);
  }

  lemma NumeralReads(o: Options, n: Numeral, suf: string)
    requires n.Valid() && Follows(suf)
    ensures ParseFiniteNumber(o, n.Text() + suf) == Ok(n.Meaning(), suf)
  {
    hide ParseFiniteNumber, StrtodLength, Denotes, DigitsText, Number, Follows;
    var ds, tail := DigitsText(n.digits), FractionText(n.fraction) + (ExponentText(n.exponent) + suf);
    NumberIs(n.digits);
    DigitsAre(n.digits);
    TailFront(n, suf);
    NumeralText(n, suf);
    if n.fraction == [] && n.exponent.NoExponent? {
      FollowsEnds(suf);
      ZeroAlone(n.digits);
      IntLiteral(o, n.negative, ds, suf);
      assert n.Text() == Sign(n.negative) + ds;
    } else {
      FloatGoes(o, n.negative, ds, tail);
      NumeralTaken(n, suf);
      assert (n.Text() + suf)[..|n.Text()|] == n.Text() && (n.Text() + suf)[|n.Text()|..] == suf;
    }
  }

  lemma FollowsEnds(suf: string)
    requires Follows(suf)
    ensures NumberEnd(suf)
  {
  }

  lemma ZeroAlone(ds: seq<Dec>)
    requires ds != [] && (ds[0] == 0 ==> |ds| == 1)
    ensures DigitsText(ds)[0] != '0' || DigitsText(ds) == "0"
  {
    DigitsAre(ds);
    if ds[0] == 0 { assert ds[1..] == []; }
  }

  lemma NumberCore(o: Options, n: Numeral, suf: string)
    requires n.Valid() && Follows(suf)
    ensures ParseCore(o, n.Text() + suf) == Ok(n.Meaning(), suf)
    ensures Starts(n.Text() + suf) && !IdentStarter(Peek(n.Text() + suf, 0))
  {
    hide ParseFiniteNumber, DigitsText, Number;
    var s, ds := n.Text() + suf, DigitsText(n.digits);
    NumeralReads(o, n, suf);
    DigitsAre(n.digits);
    assert s[0] == if n.negative then '-' else ds[0];
    assert n.negative ==> s[1] == ds[0];
  }

  // ---- Arrays and objects are read ------------------------------------------------------------------------

  /** The first character of a text tells it apart from what can stand in front of it. */
  lemma DocStarts(o: Options, d: Doc, suf: string)
    requires Proper(o, d) && Follows(suf)
    ensures var s := DocText(d, suf); Starts(s) && (IdentStarter(Peek(s, 0)) ==> Reserved(s))
  {
    hide ItemsOf, MembersOf, ConfigSpelling.Text, AllAllowed;
    var s := DocText(d, suf);
    match d
    case JNull => assert Peek(s, 4) == Peek(suf, 0) && s[..4] == "null";
    case JBool(b) => WordStarts(b, suf);
    case JNumber(n) => NumberCore(o, n, suf);
    case JString(ps) => assert s[0] == '"';
    case JArray(inside, items) => assert s[0] == '[';
    case JObject(inside, members) => assert s[0] == '{';
  }

  lemma WordStarts(b: bool, suf: string)
    requires Follows(suf)
    ensures var s := (if b then "true" else "false") + suf; Starts(s) && Reserved(s)
  {
    var s := (if b then "true" else "false") + suf;
    if b { assert Peek(s, 4) == Peek(suf, 0) && s[..4] == "true"; } else { assert Peek(s, 5) == Peek(suf, 0) && s[..5] == "false" && s[0] == 'f'; }
  }

  /** Behind a value, white space, a comma, and white space up to the next. */
  lemma AfterComma(o: Options, after: string, ws: string, next: string, closer: char, omitComma: bool, trailingComma: bool) returns (left: string)
    requires o.Valid() && White(after) && White(ws) && !MaybeWhite(Peek(next, 0)) && Peek(next, 0) !in {closer, NUL}
    requires !MaybeWhite(closer) && closer != NUL
    ensures White(left) && AfterValue(o, after + ("," + (ws + next)), closer, omitComma, trailingComma) == Ok((), left + next)
  {
    hide SkipWhite;
    var s := "," + (ws + next);
    assert s[1..] == ws + next && s[0] == ',';
    var before := SkipLine(o, after, s);
    SkipRun(o, before, s);
    left := SkipLine(o, ws, next);
    assert Peek(left + next, 0) == if left == [] then Peek(next, 0) else left[0];
  }

  /** The text from the first element on, behind the white space in front of it. */
  function ItemRun(items: seq<Item>, tail: string): string
    requires items != []
  {
    DocText(items[0].doc, items[0].after + MoreItems(items, tail))
  }

  ghost predicate ItemsProper(o: Options, items: seq<Item>) {
    forall x :: x in items ==> White(x.before) && White(x.after) && Proper(o, x.doc)
  }

  ghost predicate ItemsMean(items: seq<Item>, vs: seq<Value>) {
    |vs| == |items| && forall i :: 0 <= i < |items| ==> Means(items[i].doc, vs[i])
  }

  lemma ItemsTail(o: Options, items: seq<Item>, vs: seq<Value>)
    requires items != [] && ItemsProper(o, items) && ItemsMean(items, vs)
    ensures ItemsProper(o, items[1..]) && ItemsMean(items[1..], vs[1..]) && vs != [] && Means(items[0].doc, vs[0])
    ensures White(items[0].before) && White(items[0].after) && Proper(o, items[0].doc)
  {
    hide Proper, Means;
    assert items[0] in items;
  }

  /** Where the elements of an array, or the members of an object, can come to their end. */
  predicate Ends(end: string, closer: char) {
    end == "" || end[0] == closer
  }

  lemma MoreItemsFollow(items: seq<Item>, end: string)
    requires items != [] && White(items[0].after) && Ends(end, ']')
    ensures Follows(items[0].after + MoreItems(items, end))
  {
    hide ItemsOf;
    var ws, m := items[0].after, MoreItems(items, end);
    assert Peek(ws + m, 0) == if ws == "" then Peek(m, 0) else ws[0];
  }

  lemma {:induction false} ItemsAreRead(o: Options, pre: string, items: seq<Item>, vs: seq<Value>, end: string, acc: seq<Value>)
    requires o.Valid() && White(pre) && items != [] && ItemsProper(o, items) && ItemsMean(items, vs) && Ends(end, ']')
    ensures ParseElements(o, pre + ItemRun(items, end), acc) == Ok(acc + vs, end)
    decreases items, 1
  {
    hide ParseElements, ParseCore, AfterValue, DocText, Proper, Means, Follows, White;
    var d, after, more := items[0].doc, items[0].after, MoreItems(items, end);
    ItemsTail(o, items, vs);
    MoreItemsFollow(items, end);
    DocStarts(o, d, after + more);
    DocReads(o, d, vs[0], after + more);
    ElementStep(o, pre, ItemRun(items, end), acc);
    assert acc + [vs[0]] + vs[1..] == acc + vs;
    if |items| == 1 {
      AfterLast(o, after, end, ']', o.arrayOmitComma, o.arrayTrailingComma);
      NothingIsWhite();
      NoMoreElements(o, "", end, acc + [vs[0]]);
      assert "" + end == end;
      assert vs == [vs[0]] && acc + vs == acc + [vs[0]];
    } else {
      var rest := items[1..];
      ItemsTail(o, rest, vs[1..]);
      MoreItemsFollow(rest, end);
      DocStarts(o, rest[0].doc, rest[0].after + MoreItems(rest, end));
      var left := AfterComma(o, after, rest[0].before, ItemRun(rest, end), ']', o.arrayOmitComma, o.arrayTrailingComma);
      ItemsAreRead(o, left, rest, vs[1..], end, acc + [vs[0]]);
    }
  }

  lemma {:induction false} ElementsAreRead(o: Options, inside: string, items: seq<Item>, vs: seq<Value>, end: string)
    requires o.Valid() && White(inside) && ItemsProper(o, items) && ItemsMean(items, vs) && Ends(end, ']')
    ensures ParseElements(o, inside + ItemsOf(items, end), []) == Ok(vs, end)
    decreases items, 2
  {
    hide ParseElements, ParseCore, DocText, Proper, Means, MoreItems;
    if items == [] {
      NoMoreElements(o, inside, end, []);
      assert vs == [];
    } else {
      ItemsTail(o, items, vs);
      WhiteJoins(inside, items[0].before);
      assert inside + ItemsOf(items, end) == (inside + items[0].before) + ItemRun(items, end);
      ItemsAreRead(o, inside + items[0].before, items, vs, end, []);
      assert [] + vs == vs;
    }
  }

  lemma {:induction false} ArrayDocReads(o: Options, inside: string, items: seq<Item>, vs: seq<Value>, suf: string)
    requires o.Valid() && White(inside) && ItemsProper(o, items) && ItemsMean(items, vs)
    ensures ParseCore(o, "[" + (inside + ItemsOf(items, "]" + suf))) == Ok(Array(vs), suf)
    decreases items, 3
  {
    hide ParseElements, ParseCore, DocText, Proper, Means, ItemsOf;
    ElementsAreRead(o, inside, items, vs, "]" + suf);
    BracketReads(o, inside + ItemsOf(items, "]" + suf), vs, suf);
  }

  // ---- Objects --------------------------------------------------------------------------------------------

  /** What stands behind a member. */
  function MoreMembers(members: seq<Member>, tail: string): string
    requires members != []
  {
    if |members| == 1 then tail else "," + MembersOf(members[1..], tail)
  }

  ghost predicate MembersProper(o: Options, members: seq<Member>) {
    forall m :: m in members ==> ProperMember(o, m) && Proper(o, m.doc)
  }

  ghost predicate MembersMean(members: seq<Member>, es: seq<Entry>) {
    |es| == |members| && forall i :: 0 <= i < |members| ==> Spells(members[i].key, es[i].key) && Means(members[i].doc, es[i].value)
  }

  lemma MembersTail(o: Options, members: seq<Member>, es: seq<Entry>)
    requires members != [] && MembersProper(o, members) && MembersMean(members, es)
    ensures MembersProper(o, members[1..]) && MembersMean(members[1..], es[1..]) && es != []
    ensures Spells(members[0].key, es[0].key) && Means(members[0].doc, es[0].value)
    ensures ProperMember(o, members[0]) && Proper(o, members[0].doc)
  {
    hide Proper, Means, ProperMember, Spells;
    assert members[0] in members;
  }

  lemma MoreMembersFollow(members: seq<Member>, end: string)
    requires members != [] && White(members[0].after) && Ends(end, '}')
    ensures Follows(members[0].after + MoreMembers(members, end))
  {
    hide MembersOf;
    var ws, m := members[0].after, MoreMembers(members, end);
    assert Peek(ws + m, 0) == if ws == "" then Peek(m, 0) else ws[0];
  }

  /** A key in quotes, then the colon with white space around it. */
  lemma KeyDocReads(o: Options, m: Member, key: string, s3: string)
    requires o.Valid() && ProperMember(o, m) && Spells(m.key, key) && Starts(s3)
    ensures var s2 := m.afterKey + (":" + (m.beforeValue + s3));
            var s := "\"" + ConfigSpelling.Text(m.key) + "\"" + s2;
            && Starts(s) && ParseKey(o, s) == Ok(key, s2) && ParseColon(o, s2) == Ok((), s3)
  {
    hide ParseString, AllAllowed, Spells, SkipWhite, White;
    var colon := ":" + (m.beforeValue + s3);
    var s2 := m.afterKey + colon;
    var s := "\"" + ConfigSpelling.Text(m.key) + "\"" + s2;
    FirstOf(m.afterKey, colon);
    SpelledStringReads(o, m.key, key, s2);
    assert s[0] == '"';
    SkipRun(o, m.afterKey, colon);
    assert colon[1..] == m.beforeValue + s3;
    SkipRun(o, m.beforeValue, s3);
  }

  lemma FirstOf(ws: string, colon: string)
    requires White(ws) && Peek(colon, 0) == ':'
    ensures Peek(ws + colon, 0) != '"'
  {
    assert Peek(ws + colon, 0) == if ws == "" then ':' else ws[0];
  }

  lemma {:induction false} MembersAreRead(o: Options, pre: string, members: seq<Member>, es: seq<Entry>, end: string, acc: seq<Entry>)
    requires o.Valid() && White(pre) && members != [] && MembersProper(o, members) && MembersMean(members, es) && UniqueKeys(acc + es) && Ends(end, '}')
    ensures ParseMembers(o, pre + MemberRun(members, end), acc) == Ok(acc + es, end)
    decreases members, 1
  {
    hide ParseMembers, ParseCore, ParseKey, ParseColon, AfterValue, DocText, Proper, ProperMember, Means, Spells, Follows, White, UniqueKeys;
    var m, more := members[0], MoreMembers(members, end);
    var s3 := DocText(m.doc, m.after + more);
    var s2 := m.afterKey + (":" + (m.beforeValue + s3));
    MembersTail(o, members, es);
    MemberParts(o, m);
    MoreMembersFollow(members, end);
    DocStarts(o, m.doc, m.after + more);
    KeyDocReads(o, m, es[0].key, s3);
    FreshKey(acc, es);
    DocReads(o, m.doc, es[0].value, m.after + more);
    EntryStep(o, pre, MemberRun(members, end), acc, es[0].key, s2, s3);
    assert acc + [es[0]] + es[1..] == acc + es;
    assert Entry(es[0].key, es[0].value) == es[0];
    if |members| == 1 {
      AfterLast(o, m.after, end, '}', o.objectOmitComma, o.objectTrailingComma);
      NothingIsWhite();
      NoMoreEntries(o, "", end, acc + [es[0]]);
      assert "" + end == end;
      assert es == [es[0]] && acc + es == acc + [es[0]];
    } else {
      var rest := members[1..];
      MembersTail(o, rest, es[1..]);
      MemberParts(o, rest[0]);
      var left := AfterComma(o, m.after, rest[0].before, MemberRun(rest, end), '}', o.objectOmitComma, o.objectTrailingComma);
      MembersAreRead(o, left, rest, es[1..], end, acc + [es[0]]);
    }
  }

  lemma MemberParts(o: Options, m: Member)
    requires ProperMember(o, m)
    ensures White(m.before) && White(m.afterKey) && White(m.beforeValue) && White(m.after)
    ensures forall members: seq<Member>, tail :: members != [] && members[0] == m ==> Peek(MemberRun(members, tail), 0) == '"'
  {
    hide DocText, MembersOf, White;
  }

  lemma {:induction false} MembersReadAll(o: Options, inside: string, members: seq<Member>, es: seq<Entry>, end: string)
    requires o.Valid() && White(inside) && MembersProper(o, members) && MembersMean(members, es) && UniqueKeys(es) && Ends(end, '}')
    ensures ParseMembers(o, inside + MembersOf(members, end), []) == Ok(es, end)
    decreases members, 2
  {
    hide ParseMembers, ParseCore, DocText, Proper, Means, Spells, MemberRun;
    if members == [] {
      NoMoreEntries(o, inside, end, []);
      assert es == [];
    } else {
      MembersTail(o, members, es);
      WhiteJoins(inside, members[0].before);
      assert inside + MembersOf(members, end) == (inside + members[0].before) + MemberRun(members, end);
      assert [] + es == es;
      MembersAreRead(o, inside + members[0].before, members, es, end, []);
    }
  }

  lemma {:induction false} ObjectDocReads(o: Options, inside: string, members: seq<Member>, es: seq<Entry>, suf: string)
    requires o.Valid() && White(inside) && MembersProper(o, members) && MembersMean(members, es) && UniqueKeys(es)
    ensures ParseCore(o, "{" + (inside + MembersOf(members, "}" + suf))) == Ok(Object(es), suf)
    decreases members, 3
  {
    hide ParseMembers, ParseCore, DocText, Proper, Means, Spells, MembersOf;
    MembersReadAll(o, inside, members, es, "}" + suf);
    BraceReads(o, inside + MembersOf(members, "}" + suf), es, suf);
  }

  // ---- Whole texts ----------------------------------------------------------------------------------------

  lemma StringDocReads(o: Options, ps: seq<Piece>, x: string, suf: string)
    requires AllAllowed(o, ps) && Spells(ps, x) && Follows(suf)
    ensures ParseCore(o, "\"" + ConfigSpelling.Text(ps) + "\"" + suf) == Ok(Str(x), suf)
  {
    hide ParseString, Spells, ConfigSpelling.Text, AllAllowed;
    SpelledStringReads(o, ps, x, suf);
    assert ("\"" + ConfigSpelling.Text(ps) + "\"" + suf)[0] == '"';
  }

  /** A JSON value, whatever it is followed by, is read as what it means. */
  lemma {:induction false} DocReads(o: Options, d: Doc, v: Value, suf: string)
    requires o.Valid() && Proper(o, d) && Means(d, v) && Follows(suf)
    ensures ParseCore(o, DocText(d, suf)) == Ok(v, suf)
    decreases d, 4
  {
    hide ParseCore;
    match d
    case JNull => WordCore(o, v, "null", suf);
    case JBool(b) => WordCore(o, v, if b then "true" else "false", suf);
    case JNumber(n) => NumberCore(o, n, suf);
    case JString(ps) => StringDocReads(o, ps, v.s, suf);
    case JArray(inside, items) => ArrayDocReads(o, inside, items, v.items, suf);
    case JObject(inside, members) => ObjectDocReads(o, inside, members, v.entries, suf);
  }

  /** Every JSON text is read, to its end, as the tree it means: in any layout, with any white space before and
      behind it, its strings in any spelling and its numbers in any form. */
  lemma JsonTextReads(o: Options, before: string, d: Doc, v: Value, after: string)
    requires o.Valid() && White(before) && Proper(o, d) && Means(d, v) && White(after)
    ensures ParseText(o, before + DocText(d, after)) == Ok(v, "")
  {
    hide ParseElements, ParseCore, AfterValue, DocText, Proper, Means;
    assert Follows(after) by { if after != "" { assert after[0] in {' ', '\t', '\n', '\r'}; } }
    DocStarts(o, d, after);
    DocReads(o, d, v, after);
    ElementStep(o, before, DocText(d, after), []);
    assert after + "" == after;
    AfterLast(o, after, "", ']', o.arrayOmitComma, o.arrayTrailingComma);
    NoMoreElements(o, "", "", [v]);
    assert [] + [v] == [v];
  }
}
