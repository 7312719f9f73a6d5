/** Where errors are reported. What goes wrong in a value is reported at the same place however deep the value is
    nested and whatever stands in front of it; and for each kind of error the place is a certain character. */
module ConfigErrors {
  import opened ConfigText
  import opened ConfigUtf8
  import opened ConfigGrammar
  import opened ConfigNumbers
  import opened ConfigRoundTrip
  import opened ConfigSpelling
  import opened ConfigDocuments
  import opened ConfigMeaning
  import P = ConfigParser

  // ---- Places ---------------------------------------------------------------------------------------------

  function Newlines(s: string): nat {
    if s == [] then 0 else (if s[|s| - 1] == '\n' then 1 else 0) + Newlines(s[..|s| - 1])
  }

  /** A place behind `lines`, which end with a newline or are empty, and `left` on its own line: lines and columns are
      counted from one. */
  lemma PlaceMeans(lines: string, left: string, rest: string)
    requires lines == "" || lines[|lines| - 1] == '\n'
    requires forall i :: 0 <= i < |left| ==> left[i] != '\n'
    ensures P.ErrorAt(lines + left + rest, |lines + left|) == P.ParseError(1 + Newlines(lines), 1 + |left|)
  {
    var text := lines + left + rest;
    LinesBefore(text, |lines|);
    assert text[..|lines|] == lines;
    assert |lines| > 0 ==> text[|lines| - 1] == '\n';
    P.SameLine(text, |lines|, |lines| + |left|);
  }

  lemma {:induction false} LinesBefore(text: string, p: nat)
    requires p <= |text|
    ensures P.LineOf(text, p) == 1 + Newlines(text[..p])
    decreases p
  {
    if p > 0 {
      LinesBefore(text, p - 1);
      assert text[..p][..p - 1] == text[..p - 1];
    }
  }

  // ---- Errors inside arrays and objects -------------------------------------------------------------------

  /** What stands in front of a value within one array or object: elements `items` that mean `vs`, or members that
      mean `es`, each with its comma, and for an object the key, which spells `x`, and the colon. */
  datatype Frame =
    | InArray(inside: string, items: seq<Item>, vs: seq<Value>, before: string)
    | InObject(inside: string, members: seq<Member>, es: seq<Entry>, before: string, key: seq<Piece>, x: string, afterKey: string, beforeValue: string)

  function ItemsThen(items: seq<Item>, before: string, rest: string): string
    decreases |items|, 1
  {
    if items == [] then before + rest else items[0].before + ItemsRunThen(items, before, rest)
  }

  function ItemsRunThen(items: seq<Item>, before: string, rest: string): string
    requires items != []
    decreases |items|, 0
  {
    DocText(items[0].doc, items[0].after + ("," + ItemsThen(items[1..], before, rest)))
  }

  function KeyThen(key: seq<Piece>, afterKey: string, beforeValue: string, rest: string): string {
    "\"" + ConfigSpelling.Text(key) + "\"" + (afterKey + (":" + (beforeValue + rest)))
  }

  function MembersThen(members: seq<Member>, before: string, rest: string): string
    decreases |members|, 1
  {
    if members == [] then before + rest else members[0].before + MembersRunThen(members, before, rest)
  }

  function MembersRunThen(members: seq<Member>, before: string, rest: string): string
    requires members != []
    decreases |members|, 0
  {
    var m := members[0];
    KeyThen(m.key, m.afterKey, m.beforeValue, DocText(m.doc, m.after + ("," + MembersThen(members[1..], before, rest))))
  }

  /** The frame, with `rest` from the value on. */
  function Framed(f: Frame, rest: string): string {
    match f
    case InArray(inside, items, _, before) => "[" + (inside + ItemsThen(items, before, rest))
    case InObject(inside, members, _, before, key, _, afterKey, beforeValue) =>
      "{" + (inside + MembersThen(members, before, KeyThen(key, afterKey, beforeValue, rest)))
  }

  function Nested(fs: seq<Frame>, rest: string): string {
    if fs == [] then rest else Framed(fs[0], Nested(fs[1..], rest))
  }

  /** All that stands in front of the value is as it should be, and the keys differ. */
  ghost predicate FrameProper(o: Options, f: Frame) {
    match f
    case InArray(inside, items, vs, before) => White(inside) && White(before) && ItemsProper(o, items) && ItemsMean(items, vs)
    case InObject(inside, members, es, before, key, x, afterKey, beforeValue) =>
      && White(inside) && White(before) && MembersProper(o, members) && MembersMean(members, es)
      && White(afterKey) && White(beforeValue) && AllAllowed(o, key) && Spells(key, x) && (afterKey == "" || o.allowSpaceBeforeColon)
      && UniqueKeys(es) && !HasKey(es, x)
  }

  /** A value that goes wrong at `at`. */
  predicate Breaks(o: Options, s: string, at: string) {
    Starts(s) && ParseCore(o, s) == Err(at) && (IdentStarter(Peek(s, 0)) && !Reserved(s) ==> at == s)
  }

  lemma ElementBreaks(o: Options, pre: string, s: string, at: string, acc: seq<Value>)
    requires o.Valid() && White(pre) && Breaks(o, s, at)
    ensures ParseElements(o, pre + s, acc) == Err(at)
  {
    hide SkipWhite, ParseCore, ParseSeparator, Reserved;
    SkipRun(o, pre, s);
    NothingToSkip(o, s, false);
  }

  /** The text from the first complete element on, or from the broken one if there is none. */
  function ItemsHead(items: seq<Item>, before: string, rest: string): string {
    if items == [] then rest else ItemsRunThen(items, before, rest)
  }

  function ItemsWhite(items: seq<Item>, before: string): string {
    if items == [] then before else items[0].before
  }

  lemma CommaFollows(after: string, rest: string)
    requires White(after)
    ensures Follows(after + ("," + rest))
  {
    assert Peek(after + ("," + rest), 0) == if after == "" then ',' else after[0];
  }

  /** Complete elements, each with its comma, are read, and the loop goes on with what stands behind them. */
  lemma {:induction false} ItemsReadOn(o: Options, pre: string, items: seq<Item>, vs: seq<Value>, before: string, next: string, acc: seq<Value>)
    returns (left: string)
    requires o.Valid() && White(pre) && White(before) && ItemsProper(o, items) && ItemsMean(items, vs) && Starts(next)
    ensures White(left) && ParseElements(o, pre + ItemsHead(items, before, next), acc) == ParseElements(o, left + next, acc + vs)
    decreases |items|
  {
    hide ParseElements, ParseCore, AfterValue, DocText, Proper, Means, Follows, White, Starts;
    if items == [] {
      left := pre;
      assert acc + vs == acc;
    } else {
      var d, after, rest := items[0].doc, items[0].after, items[1..];
      ItemsTail(o, items, vs);
      var more := after + ("," + ItemsThen(rest, before, next));
      CommaFollows(after, ItemsThen(rest, before, next));
      DocStarts(o, d, more);
      DocReads(o, d, vs[0], more);
      ElementStep(o, pre, ItemsHead(items, before, next), acc);
      ItemsHeadStarts(o, rest, vs[1..], before, next);
      StartsMeans(ItemsHead(rest, before, next));
      left := AfterComma(o, after, ItemsWhite(rest, before), ItemsHead(rest, before, next), ']', o.arrayOmitComma, o.arrayTrailingComma);
      left := ItemsReadOn(o, left, rest, vs[1..], before, next, acc + [vs[0]]);
      assert acc + [vs[0]] + vs[1..] == acc + vs;
    }
  }

  lemma StartsMeans(s: string)
    requires Starts(s)
    ensures !MaybeWhite(Peek(s, 0)) && Peek(s, 0) !in {NUL, ',', ']', '}', ':'}
  {
  }

  lemma ItemsHeadStarts(o: Options, items: seq<Item>, vs: seq<Value>, before: string, s: string)
    requires White(before) && ItemsProper(o, items) && ItemsMean(items, vs) && Starts(s)
    ensures Starts(ItemsHead(items, before, s)) && White(ItemsWhite(items, before))
    ensures ItemsThen(items, before, s) == ItemsWhite(items, before) + ItemsHead(items, before, s)
  {
    hide ParseCore, DocText, Proper, Means, Follows, White;
    if items != [] {
      ItemsTail(o, items, vs);
      CommaFollows(items[0].after, ItemsThen(items[1..], before, s));
      DocStarts(o, items[0].doc, items[0].after + ("," + ItemsThen(items[1..], before, s)));
    }
  }

  /** The same from the opening bracket on. */
  lemma ArrayReadOn(o: Options, inside: string, items: seq<Item>, vs: seq<Value>, before: string, next: string) returns (left: string)
    requires o.Valid() && White(inside) && White(before) && ItemsProper(o, items) && ItemsMean(items, vs) && Starts(next)
    ensures White(left) && ParseElements(o, inside + ItemsThen(items, before, next), []) == ParseElements(o, left + next, vs)
  {
    hide ParseElements, ItemsThen, ItemsHead, ItemsWhite, White, ItemsProper, ItemsMean, Starts;
    ItemsHeadStarts(o, items, vs, before, next);
    WhiteJoins(inside, ItemsWhite(items, before));
    left := ItemsReadOn(o, inside + ItemsWhite(items, before), items, vs, before, next, []);
    assert [] + vs == vs;
    assert inside + ItemsThen(items, before, next) == (inside + ItemsWhite(items, before)) + ItemsHead(items, before, next);
  }

  lemma ArrayBreaks(o: Options, f: Frame, s: string, at: string)
    requires o.Valid() && FrameProper(o, f) && f.InArray? && Breaks(o, s, at)
    ensures Breaks(o, Framed(f, s), at)
  {
    hide ParseElements, ParseCore, ItemsThen, White, ItemsProper, ItemsMean;
    var left := ArrayReadOn(o, f.inside, f.items, f.vs, f.before, s);
    ElementBreaks(o, left, s, at, f.vs);
    BracketBreaks(o, f.inside + ItemsThen(f.items, f.before, s), at);
  }

  lemma BracketBreaks(o: Options, body: string, at: string)
    requires ParseElements(o, body, []) == Err(at)
    ensures Breaks(o, "[" + body, at)
  {
    hide ParseMembers, ParseElements, ParseString, ParseFiniteNumber, ParseWord;
    assert ("[" + body)[1..] == body;
  }

  lemma BraceBreaks(o: Options, body: string, at: string)
    requires ParseMembers(o, body, []) == Err(at)
    ensures Breaks(o, "{" + body, at)
  {
    hide ParseMembers, ParseElements, ParseString, ParseFiniteNumber, ParseWord;
    assert ("{" + body)[1..] == body;
  }

  function MembersHead(members: seq<Member>, before: string, rest: string): string {
    if members == [] then rest else MembersRunThen(members, before, rest)
  }

  function MembersWhite(members: seq<Member>, before: string): string {
    if members == [] then before else members[0].before
  }

  /** A key whose value goes wrong, behind the members read already. */
  lemma EntryBreaks(o: Options, pre: string, key: seq<Piece>, x: string, afterKey: string, beforeValue: string, s: string, at: string, acc: seq<Entry>)
    requires o.Valid() && White(pre) && Breaks(o, s, at) && White(afterKey) && White(beforeValue) && AllAllowed(o, key) && Spells(key, x)
    requires (afterKey == "" || o.allowSpaceBeforeColon) && !HasKey(acc, x)
    ensures ParseMembers(o, pre + KeyThen(key, afterKey, beforeValue, s), acc) == Err(at)
  {
    hide ParseMembers, ParseCore, ParseKey, ParseColon, AllAllowed, Spells, HasKey;
    assert White("");
    KeyDocReads(o, Member("", key, afterKey, beforeValue, JNull, ""), x, s);
    EntryStep(o, pre, KeyThen(key, afterKey, beforeValue, s), acc, x, afterKey + (":" + (beforeValue + s)), s);
  }

  lemma MembersHeadStarts(members: seq<Member>, before: string, last: string)
    requires White(before) && Peek(last, 0) == '"' && (members != [] ==> White(members[0].before))
    ensures Peek(MembersHead(members, before, last), 0) == '"' && White(MembersWhite(members, before))
    ensures MembersThen(members, before, last) == MembersWhite(members, before) + MembersHead(members, before, last)
  {
    hide DocText, White;
  }

  lemma MemberIsRead(o: Options, pre: string, members: seq<Member>, es: seq<Entry>, before: string, next: string, acc: seq<Entry>)
    requires o.Valid() && White(pre) && members != [] && MembersProper(o, members) && MembersMean(members, es) && UniqueKeys(acc + es)
    ensures ParseMembers(o, pre + MembersHead(members, before, next), acc) ==
            MoreEntries(o, AfterValue(o, members[0].after + ("," + MembersThen(members[1..], before, next)), '}', o.objectOmitComma, o.objectTrailingComma), acc + [es[0]])
  {
    hide ParseMembers, ParseCore, ParseKey, ParseColon, AfterValue, DocText, Proper, ProperMember, Means, Spells, Follows, White, UniqueKeys, MembersThen;
    var m := members[0];
    var more := m.after + ("," + MembersThen(members[1..], before, next));
    MembersTail(o, members, es);
    MemberParts(o, m);
    CommaFollows(m.after, MembersThen(members[1..], before, next));
    DocStarts(o, m.doc, more);
    KeyDocReads(o, m, es[0].key, DocText(m.doc, more));
    FreshKey(acc, es);
    DocReads(o, m.doc, es[0].value, more);
    EntryStep(o, pre, MembersHead(members, before, next), acc, es[0].key, m.afterKey + (":" + (m.beforeValue + DocText(m.doc, more))), DocText(m.doc, more));
    assert Entry(es[0].key, es[0].value) == es[0];
  }

  lemma NoMembers(es: seq<Entry>)
    ensures MembersMean([], es) ==> es == []
  {
  }

  /** Complete members, each with its comma, are read, and the loop goes on with what stands behind them. */
  lemma {:induction false} MembersReadOn(o: Options, pre: string, members: seq<Member>, es: seq<Entry>, before: string, next: string, acc: seq<Entry>)
    returns (left: string)
    requires o.Valid() && White(pre) && White(before) && MembersProper(o, members) && MembersMean(members, es) && UniqueKeys(acc + es) && Peek(next, 0) == '"'
    ensures White(left) && ParseMembers(o, pre + MembersHead(members, before, next), acc) == ParseMembers(o, left + next, acc + es)
    decreases |members|
  {
    hide ParseMembers, AfterValue, DocText, ProperMember, White, UniqueKeys, MembersThen, MembersProper, MembersMean;
    if members == [] {
      left := pre;
      NoMembers(es);
      assert acc + es == acc;
    } else {
      var rest := members[1..];
      MemberIsRead(o, pre, members, es, before, next, acc);
      MembersTail(o, members, es);
      MemberParts(o, members[0]);
      assert acc + [es[0]] + es[1..] == acc + es;
      if rest != [] { MembersTail(o, rest, es[1..]); MemberParts(o, rest[0]); }
      MembersHeadStarts(rest, before, next);
      left := AfterComma(o, members[0].after, MembersWhite(rest, before), MembersHead(rest, before, next), '}', o.objectOmitComma, o.objectTrailingComma);
      left := MembersReadOn(o, left, rest, es[1..], before, next, acc + [es[0]]);
    }
  }

  /** The same from the opening brace on. */
  lemma ObjectReadOn(o: Options, inside: string, members: seq<Member>, es: seq<Entry>, before: string, next: string) returns (left: string)
    requires o.Valid() && White(inside) && White(before) && MembersProper(o, members) && MembersMean(members, es) && UniqueKeys(es) && Peek(next, 0) == '"'
    ensures White(left) && ParseMembers(o, inside + MembersThen(members, before, next), []) == ParseMembers(o, left + next, es)
  {
    hide ParseMembers, MembersThen, MembersHead, MembersWhite, White, MembersProper, MembersMean, UniqueKeys, ProperMember;
    if members != [] { MembersTail(o, members, es); MemberParts(o, members[0]); }
    MembersHeadStarts(members, before, next);
    WhiteJoins(inside, MembersWhite(members, before));
    assert [] + es == es;
    left := MembersReadOn(o, inside + MembersWhite(members, before), members, es, before, next, []);
    assert inside + MembersThen(members, before, next) == (inside + MembersWhite(members, before)) + MembersHead(members, before, next);
  }

  lemma ObjectBreaks(o: Options, f: Frame, s: string, at: string)
    requires o.Valid() && FrameProper(o, f) && f.InObject? && Breaks(o, s, at)
    ensures Breaks(o, Framed(f, s), at)
  {
    hide ParseMembers, Breaks, MembersThen, White, MembersProper, MembersMean, UniqueKeys, HasKey, Spells, AllAllowed;
    var next := KeyThen(f.key, f.afterKey, f.beforeValue, s);
    var left := ObjectReadOn(o, f.inside, f.members, f.es, f.before, next);
    EntryBreaks(o, left, f.key, f.x, f.afterKey, f.beforeValue, s, at, f.es);
    BraceBreaks(o, f.inside + MembersThen(f.members, f.before, next), at);
  }

  lemma {:induction false} NestedBreaks(o: Options, fs: seq<Frame>, s: string, at: string)
    requires o.Valid() && (forall f :: f in fs ==> FrameProper(o, f)) && Breaks(o, s, at)
    ensures Breaks(o, Nested(fs, s), at)
    decreases |fs|
  {
    hide Breaks, Framed, FrameProper;
    if fs != [] {
      NestedBreaks(o, fs[1..], s, at);
      assert fs[0] in fs;
      if fs[0].InArray? { ArrayBreaks(o, fs[0], Nested(fs[1..], s), at); } else { ObjectBreaks(o, fs[0], Nested(fs[1..], s), at); }
    }
  }

  /** What goes wrong in a value is reported at the same place however deep the value stands in the text. */
  lemma ErrorKeepsItsPlace(o: Options, before: string, fs: seq<Frame>, s: string, at: string)
    requires o.Valid() && White(before) && (forall f :: f in fs ==> FrameProper(o, f)) && Breaks(o, s, at)
    ensures ParseText(o, before + Nested(fs, s)) == Err(at)
  {
    hide Breaks, ParseElements;
    NestedBreaks(o, fs, s, at);
    ElementBreaks(o, before, Nested(fs, s), at, []);
  }

  // ---- The table of errors: strings -----------------------------------------------------------------------

  lemma StringBreaks(o: Options, s: string, at: string)
    requires LooksAt(s, "\"") && ParseString(o, s) == Err(at)
    ensures Breaks(o, s, at)
  {
    hide ParseString;
  }

  /** What is wrong behind the pieces of a string is reported where it stands, or at the quote that opens it. */
  lemma InString(o: Options, ps: seq<Piece>, tail: string, at: string)
    requires AllAllowed(o, ps) && Peek(tail, 0) != '"'
    requires forall start, acc :: |start| > |tail| ==> ParseChars(o, tail, start, acc) == Err(if at == "" then start else at)
    ensures var s := "\"" + (ConfigSpelling.Text(ps) + tail); Breaks(o, s, if at == "" then s else at)
  {
    hide ParseString, ParseChars, Spells, ConfigSpelling.Text, AllAllowed, Breaks;
    var body := ConfigSpelling.Text(ps) + tail;
    PiecesGoOn(o, ps, tail);
    GoesOn(o, body);
    var x := PiecesRead(o, ps, tail, "\"" + body, "");
    StringBreaks(o, "\"" + body, if at == "" then "\"" + body else at);
  }

  lemma PiecesGoOn(o: Options, ps: seq<Piece>, tail: string)
    requires AllAllowed(o, ps) && Peek(tail, 0) != '"'
    ensures Peek(ConfigSpelling.Text(ps) + tail, 0) != '"'
  {
    if ps == [] {
      assert ConfigSpelling.Text(ps) + tail == tail;
    } else {
      assert Allowed(o, ps[0]);
      assert (ConfigSpelling.Text(ps) + tail)[0] == PieceText(ps[0])[0];
    }
  }

  /** A string that the end of the text, or a NUL, cuts off: its opening quote. */
  lemma StringWithoutEnd(o: Options, ps: seq<Piece>, tail: string)
    requires AllAllowed(o, ps) && Peek(tail, 0) == '\0'
    ensures var s := "\"" + (ConfigSpelling.Text(ps) + tail); Breaks(o, s, s)
  {
    forall start, acc ensures ParseChars(o, tail, start, acc) == Err(start) {}
    InString(o, ps, tail, "");
  }

  /** A newline in a string, or a tab where the options forbid it: that character. */
  lemma RawCharacter(o: Options, ps: seq<Piece>, tail: string)
    requires AllAllowed(o, ps) && (Peek(tail, 0) == '\n' || (Peek(tail, 0) == '\t' && !o.strAllowTab))
    ensures Breaks(o, "\"" + (ConfigSpelling.Text(ps) + tail), tail)
  {
    forall start, acc ensures ParseChars(o, tail, start, acc) == Err(tail) {}
    InString(o, ps, tail, tail);
  }

  /** An escape that does not exist: the character behind the backslash. */
  lemma UnknownEscape(o: Options, ps: seq<Piece>, tail: string)
    requires AllAllowed(o, ps) && Peek(tail, 0) !in {'"', '\\', '/', 'b', 'f', 'n', 'r', 't', 'u'} && (Peek(tail, 0) == 'U' ==> !o.str32bitUnicode) && tail != ""
    ensures Breaks(o, "\"" + (ConfigSpelling.Text(ps) + ("\\" + tail)), tail)
  {
    hide ParseChars, ParseEscape;
    OtherEscapesFail(o, tail);
    EscapeBreaks(o, ps, tail, tail);
  }

  /** Sixteen bits that lack a digit: the first character behind the u. */
  lemma MissingDigit(o: Options, ps: seq<Piece>, tail: string, k: nat)
    requires AllAllowed(o, ps) && k < 4 && k < |tail| && HexDigit(tail[k]) < 0
    ensures Breaks(o, "\"" + (ConfigSpelling.Text(ps) + ("\\" + ("u" + tail))), tail)
  {
    hide ParseChars, HexValue, EncodeUtf8;
    HexMeans(tail, 4);
    assert ("u" + tail)[1..] == tail;
    assert ParseHex(tail, 4) == Err(tail);
    EscapeBreaks(o, ps, "u" + tail, tail);
  }

  lemma EscapeBreaks(o: Options, ps: seq<Piece>, s: string, at: string)
    requires AllAllowed(o, ps) && ParseEscape(o, s) == Err(at) && at != ""
    ensures Breaks(o, "\"" + (ConfigSpelling.Text(ps) + ("\\" + s)), at)
  {
    hide ParseChars, ParseEscape;
    var tail := "\\" + s;
    assert tail[1..] == s;
    forall start, acc ensures ParseChars(o, tail, start, acc) == Err(at) { BehindBackslash(o, tail, start, acc); }
    InString(o, ps, tail, at);
  }

  // ---- The table of errors: arrays, objects, whole texts --------------------------------------------------

  /** Where no value begins: the character there. */
  lemma NoValue(o: Options, s: string)
    requires Starts(s) && Peek(s, 0) !in {'"', '@', 'n', 't', 'f', '{', '[', '+', '-', '.'} && !IsDigit(Peek(s, 0))
    ensures Breaks(o, s, s)
  {
    hide ParseString, ParseWord, ParseMembers, ParseElements, ParseFiniteNumber;
  }

  /** A word that is none of the three: its first character. */
  lemma WrongWord(o: Options, s: string)
    requires IdentStarter(Peek(s, 0)) && !Reserved(s)
    ensures Breaks(o, s, s)
  {
    hide ParseString, ParseMembers, ParseElements, ParseFiniteNumber;
  }

  /** An array that the end of the text cuts off behind an element: its bracket. */
  lemma ArrayWithoutEnd(o: Options, inside: string, items: seq<Item>, vs: seq<Value>)
    requires o.Valid() && White(inside) && ItemsProper(o, items) && ItemsMean(items, vs)
    ensures var s := "[" + (inside + ItemsOf(items, "")); Breaks(o, s, s)
  {
    hide ParseElements, ParseMembers, ParseString, ParseFiniteNumber, ParseWord, ItemsOf, ItemsMean, ItemsProper, White;
    var body := inside + ItemsOf(items, "");
    ElementsAreRead(o, inside, items, vs, "");
    assert ("[" + body)[1..] == body;
  }

  /** An object: its brace. */
  lemma ObjectWithoutEnd(o: Options, inside: string, members: seq<Member>, es: seq<Entry>)
    requires o.Valid() && White(inside) && MembersProper(o, members) && MembersMean(members, es) && UniqueKeys(es)
    ensures var s := "{" + (inside + MembersOf(members, "")); Breaks(o, s, s)
  {
    hide ParseElements, ParseMembers, ParseString, ParseFiniteNumber, ParseWord, MembersOf, MembersMean, MembersProper, White, UniqueKeys;
    var body := inside + MembersOf(members, "");
    MembersReadAll(o, inside, members, es, "");
    assert ("{" + body)[1..] == body;
  }

  lemma AfterNothing(o: Options, ws: string, next: string, closer: char, omitComma: bool, trailingComma: bool)
    requires o.Valid() && White(ws) && !MaybeWhite(Peek(next, 0)) && Peek(next, 0) !in {closer, NUL, ','} && !omitComma
    ensures AfterValue(o, ws + next, closer, omitComma, trailingComma) == Err(next)
  {
    hide SkipWhite;
    var left := SkipLine(o, ws, next);
    SkipRun(o, left, next);
  }

  /** Two elements without a comma between them: the second. */
  lemma MissingComma(o: Options, inside: string, items: seq<Item>, vs: seq<Value>, before: string, d: Doc, v: Value, ws: string, next: string)
    requires o.Valid() && White(inside) && White(before) && ItemsProper(o, items) && ItemsMean(items, vs) && Proper(o, d) && Means(d, v)
    requires !o.arrayOmitComma && White(ws) && ws != "" && !MaybeWhite(Peek(next, 0)) && Peek(next, 0) !in {']', NUL, ','}
    ensures Breaks(o, "[" + (inside + ItemsThen(items, before, DocText(d, ws + next))), next)
  {
    hide ParseElements, ParseCore, AfterValue, DocText, ItemsThen, Proper, Means, ItemsProper, ItemsMean;
    WhiteFirst(ws, next);
    DocStarts(o, d, ws + next);
    DocReads(o, d, v, ws + next);
    var left := ArrayReadOn(o, inside, items, vs, before, DocText(d, ws + next));
    ElementStep(o, left, DocText(d, ws + next), vs);
    AfterNothing(o, ws, next, ']', o.arrayOmitComma, o.arrayTrailingComma);
    BracketBreaks(o, inside + ItemsThen(items, before, DocText(d, ws + next)), next);
  }

  /** A comma on the line of the bracket behind it, where the options forbid that: the comma. */
  lemma TrailingComma(o: Options, inside: string, items: seq<Item>, vs: seq<Value>, before: string, d: Doc, v: Value, after: string, ws: string, rest: string)
    requires o.Valid() && White(inside) && White(before) && ItemsProper(o, items) && ItemsMean(items, vs) && Proper(o, d) && Means(d, v)
    requires !o.arrayTrailingComma && White(after) && White(ws) && forall i :: 0 <= i < |ws| ==> ws[i] != '\n'
    ensures var comma := "," + (ws + ("]" + rest));
            Breaks(o, "[" + (inside + ItemsThen(items, before, DocText(d, after + comma))), comma)
  {
    hide ParseElements, ParseCore, AfterValue, DocText, ItemsThen, Proper, Means, ItemsProper, ItemsMean, White, Starts, BehindNewline;
    var comma := "," + (ws + ("]" + rest));
    CommaFollows(after, ws + ("]" + rest));
    DocStarts(o, d, after + comma);
    DocReads(o, d, v, after + comma);
    var left := ArrayReadOn(o, inside, items, vs, before, DocText(d, after + comma));
    ElementStep(o, left, DocText(d, after + comma), vs);
    AfterTrailing(o, after, ws, "]" + rest, ']', o.arrayOmitComma, o.arrayTrailingComma);
    NothingBehind(ws);
    BracketBreaks(o, inside + ItemsThen(items, before, DocText(d, after + comma)), comma);
  }

  lemma {:induction false} NothingBehind(ws: string)
    requires forall i :: 0 <= i < |ws| ==> ws[i] != '\n'
    ensures BehindNewline(ws) == ""
    decreases |ws|
  {
    if ws != "" { NothingBehind(ws[1..]); }
  }

  lemma WhiteFirst(ws: string, next: string)
    requires White(ws) && ws != ""
    ensures Follows(ws + next)
  {
    assert (ws + next)[0] == ws[0];
  }

  /** Two members without a comma between them: the second. */
  lemma MissingCommaInObject(o: Options, inside: string, members: seq<Member>, es: seq<Entry>, before: string, m: Member, e: Entry, ws: string, next: string)
    requires o.Valid() && White(inside) && White(before) && MembersProper(o, members) && MembersMean(members, es) && UniqueKeys(es)
    requires ProperMember(o, m) && Proper(o, m.doc) && Spells(m.key, e.key) && Means(m.doc, e.value) && !HasKey(es, e.key)
    requires !o.objectOmitComma && White(ws) && ws != "" && !MaybeWhite(Peek(next, 0)) && Peek(next, 0) !in {'}', NUL, ','}
    ensures Breaks(o, "{" + (inside + MembersThen(members, before, KeyThen(m.key, m.afterKey, m.beforeValue, DocText(m.doc, ws + next)))), next)
  {
    hide ParseMembers, ParseCore, ParseKey, ParseColon, AfterValue, DocText, MembersThen, Proper, ProperMember, Means, Spells, MembersProper, MembersMean, UniqueKeys, HasKey, White;
    var value := DocText(m.doc, ws + next);
    var entry := KeyThen(m.key, m.afterKey, m.beforeValue, value);
    WhiteFirst(ws, next);
    DocStarts(o, m.doc, ws + next);
    KeyDocReads(o, m, e.key, value);
    DocReads(o, m.doc, e.value, ws + next);
    var left := ObjectReadOn(o, inside, members, es, before, entry);
    EntryStep(o, left, entry, es, e.key, m.afterKey + (":" + (m.beforeValue + value)), value);
    AfterNothing(o, ws, next, '}', o.objectOmitComma, o.objectTrailingComma);
    BraceBreaks(o, inside + MembersThen(members, before, entry), next);
  }

  /** A key that the object has already: the second one. */
  lemma DuplicateKey(o: Options, inside: string, members: seq<Member>, es: seq<Entry>, before: string, key: seq<Piece>, x: string, rest: string)
    requires o.Valid() && White(inside) && White(before) && MembersProper(o, members) && MembersMean(members, es) && UniqueKeys(es)
    requires !o.objectDuplicateKeys && AllAllowed(o, key) && Spells(key, x) && HasKey(es, x) && Peek(rest, 0) != '"'
    ensures var s := "\"" + ConfigSpelling.Text(key) + "\"" + rest; Breaks(o, "{" + (inside + MembersThen(members, before, s)), s)
  {
    hide ParseMembers, MembersThen, MembersProper, MembersMean, UniqueKeys, Spells, AllAllowed, HasKey, White;
    var s := "\"" + ConfigSpelling.Text(key) + "\"" + rest;
    var left := ObjectReadOn(o, inside, members, es, before, s);
    KeyAgain(o, left, key, x, rest, es);
    BraceBreaks(o, inside + MembersThen(members, before, s), s);
  }

  lemma KeyAgain(o: Options, pre: string, key: seq<Piece>, x: string, rest: string, es: seq<Entry>)
    requires o.Valid() && !o.objectDuplicateKeys && White(pre) && AllAllowed(o, key) && Spells(key, x) && Peek(rest, 0) != '"' && HasKey(es, x)
    ensures var s := "\"" + ConfigSpelling.Text(key) + "\"" + rest; ParseMembers(o, pre + s, es) == Err(s)
  {
    hide SkipWhite, ParseString, ParseColon, ParseValue, ParseSeparator, AllAllowed, Spells, White, HasKey;
    var s := "\"" + ConfigSpelling.Text(key) + "\"" + rest;
    assert s[0] == '"';
    SkipRun(o, pre, s);
    SpelledStringReads(o, key, x, rest);
  }

  /** A key without a colon: the character that stands in its place. */
  lemma MissingColon(o: Options, inside: string, members: seq<Member>, es: seq<Entry>, before: string, key: seq<Piece>, x: string, ws: string, next: string)
    requires o.Valid() && White(inside) && White(before) && MembersProper(o, members) && MembersMean(members, es) && UniqueKeys(es)
    requires AllAllowed(o, key) && Spells(key, x) && !HasKey(es, x) && White(ws) && Peek(ws + next, 0) != '"'
    requires !MaybeWhite(Peek(next, 0)) && Peek(next, 0) !in {':', '=', '{', '#'}
    ensures Breaks(o, "{" + (inside + MembersThen(members, before, "\"" + ConfigSpelling.Text(key) + "\"" + (ws + next))), next)
  {
    hide ParseMembers, MembersThen, MembersProper, MembersMean, UniqueKeys, Spells, AllAllowed, HasKey, White;
    var s := "\"" + ConfigSpelling.Text(key) + "\"" + (ws + next);
    var left := ObjectReadOn(o, inside, members, es, before, s);
    NoColon(o, left, key, x, ws, next, es);
    BraceBreaks(o, inside + MembersThen(members, before, s), next);
  }

  lemma NoColon(o: Options, pre: string, key: seq<Piece>, x: string, ws: string, next: string, es: seq<Entry>)
    requires o.Valid() && White(pre) && White(ws) && AllAllowed(o, key) && Spells(key, x) && Peek(ws + next, 0) != '"' && !HasKey(es, x)
    requires !MaybeWhite(Peek(next, 0)) && Peek(next, 0) !in {':', '=', '{', '#'}
    ensures ParseMembers(o, pre + ("\"" + ConfigSpelling.Text(key) + "\"" + (ws + next)), es) == Err(next)
  {
    hide SkipWhite, ParseString, ParseValue, ParseSeparator, AllAllowed, Spells, White, HasKey;
    var s := "\"" + ConfigSpelling.Text(key) + "\"" + (ws + next);
    assert s[0] == '"';
    SkipRun(o, pre, s);
    SpelledStringReads(o, key, x, ws + next);
    SkipRun(o, ws, next);
  }

  /** Comments, and a carriage return alone, are refused where they begin, whatever white space stands in front. */
  lemma {:induction false} NoComments(o: Options, ws: string, s: string)
    requires o.Valid() && White(ws) && (LooksAt(s, "//") || LooksAt(s, "/*") || (Peek(s, 0) == '\r' && Peek(s, 1) != '\n'))
    ensures SkipWhite(o, ws + s, false) == Err(s)
    decreases |ws|
  {
    hide RoundLength;
    if ws == "" {
      assert ws + s == s;
      SlashOrReturn(o, s);
    } else {
      SkipRound(o, ws, s, false);
      NoComments(o, ws[RoundLength(o, ws + s)..], s);
    }
  }

  lemma SlashOrReturn(o: Options, s: string)
    requires o.Valid() && (LooksAt(s, "//") || LooksAt(s, "/*") || (Peek(s, 0) == '\r' && Peek(s, 1) != '\n'))
    ensures SkipWhite(o, s, false) == Err(s)
  {
    assert o.indentation != "" ==> o.indentation[0] == ' ' || o.indentation[0] == '\t';
    assert Peek(s, 0) == '/' ==> s[1] == '/' || s[1] == '*';
  }

  /** Something behind the value of a whole text: its first character. */
  lemma BehindTheValue(o: Options, before: string, d: Doc, v: Value, ws: string, next: string)
    requires o.Valid() && !o.arrayOmitComma && White(before) && Proper(o, d) && Means(d, v) && White(ws) && ws != ""
    requires !MaybeWhite(Peek(next, 0)) && Peek(next, 0) !in {NUL, ','}
    ensures ParseText(o, before + DocText(d, ws + next)) == Err(next)
  {
    hide ParseElements, ParseCore, AfterValue, DocText, Proper, Means;
    WhiteFirst(ws, next);
    DocStarts(o, d, ws + next);
    DocReads(o, d, v, ws + next);
    ElementStep(o, before, DocText(d, ws + next), []);
    if Peek(next, 0) == ']' {
      AfterLast(o, ws, next, ']', o.arrayOmitComma, o.arrayTrailingComma);
      NoMoreElements(o, "", next, [v]);
      assert "" + next == next && [] + [v] == [v];
      NothingToSkip(o, next, true);
    } else {
      AfterNothing(o, ws, next, ']', o.arrayOmitComma, o.arrayTrailingComma);
    }
  }

  /** A text without a value: its end. */
  lemma NoText(o: Options, ws: string)
    requires o.Valid() && White(ws)
    ensures ParseText(o, ws) == if o.emptyFile then Ok(Object([]), "") else Err("")
  {
    hide ParseElements;
    assert ws + "" == ws;
    NoMoreElements(o, ws, "", []);
    NothingToSkip(o, "", true);
  }
}
