/** What a dump looks like: where the lines of an object begin and its values start, what stands between the elements
    of an array, and which form strings and keys take. Said on positions and with plain repetition and joining. */
module ConfigColumns {
  import opened ConfigText
  import opened ConfigLayout

  /** `s`, `n` times. */
  function Times(s: string, n: nat): (r: string)
    ensures |r| == |s| * n
  {
    if n == 0 then "" else s + Times(s, n - 1)
  }

  lemma {:induction false} IndentIs(o: Options, n: nat)
    ensures Indent(o, n) == Times(o.indentation, n)
    decreases n
  {
    if n > 0 { IndentIs(o, n - 1); }
  }

  lemma {:induction false} SpacesAre(n: nat)
    ensures Spaces(n) == Times(" ", n)
    decreases n
  {
    if n > 0 { SpacesAre(n - 1); }
  }

  // ---- The lines of an object -----------------------------------------------------------------------------

  /** Is the colon left out in front of this value? */
  predicate NoColon(o: Options, v: Value) {
    o.omitColonBeforeObject && v.Object? && v.entries != []
  }

  predicate Longest(es: seq<Entry>, m: nat) {
    (exists i :: 0 <= i < |es| && |es[i].key| == m) && forall i :: 0 <= i < |es| ==> |es[i].key| <= m
  }

  lemma {:induction false} LongestIs(es: seq<Entry>)
    requires es != []
    ensures Longest(es, LongestKey(es))
    decreases |es|
  {
    var m := LongestKey(es);
    if |es| == 1 {
      assert es[1..] == [];
      assert |es[0].key| == m;
    } else {
      LongestIs(es[1..]);
      var i :| 0 <= i < |es[1..]| && |es[1..][i].key| == LongestKey(es[1..]);
      assert es[1..][i] == es[i + 1];
      assert |es[0].key| == m || |es[i + 1].key| == m;
      forall k | 0 <= k < |es| ensures |es[k].key| <= m { if k > 0 { assert es[k] == es[1..][k - 1]; } }
    }
  }

  /** What stands between the key of `e` and its value in a pretty dump, if the longest key has `m` characters. */
  function Between(o: Options, e: Entry, m: nat): string
    requires |e.key| <= m
  {
    if NoColon(o, e.value) then " " else ": " + if o.objectAlignValues then Times(" ", m - |e.key|) else ""
  }

  /** One entry in the text `t`: its line begins at `q`, its value at `p`, and its line ends at `after`. */
  predicate LineAt(o: Options, indent: nat, t: string, e: Entry, m: nat, q: nat, p: nat, after: nat, last: bool)
    requires |e.key| <= m
  {
    var v := ValueText(o, indent, e.value);
    && q <= p && p + |v| <= after <= |t|
    && t[q..p] == Times(o.indentation, indent) + KeyText(o, e.key) + Between(o, e, m)
    && t[p..p + |v|] == v
    && t[p + |v|..after] == if o.arrayOmitComma || last then "\n" else ",\n"
  }

  /** Where the line of entry `k` ends: where the next begins, or with the text. */
  function LineEnd(starts: seq<nat>, t: string, k: nat): nat {
    if k + 1 < |starts| then starts[k + 1] else |t|
  }

  /** The entries of a pretty object, one line behind the other up to the end of `t`: where the lines begin, and where
      the values do. */
  ghost predicate Lines(o: Options, indent: nat, t: string, es: seq<Entry>, m: nat, starts: seq<nat>, values: seq<nat>)
    requires forall i :: 0 <= i < |es| ==> |es[i].key| <= m
  {
    && |starts| == |values| == |es|
    && forall k :: 0 <= k < |es| ==> LineAt(o, indent, t, es[k], m, starts[k], values[k], LineEnd(starts, t, k), k + 1 == |es|)
  }

  lemma PieceAt(a: string, b: string, c: string)
    ensures (a + b + c)[|a|..|a| + |b|] == b
  {
  }

  lemma BetweenIs(o: Options, e: Entry, m: nat)
    requires o.indentation != "" && |e.key| <= m
    ensures ColonText(o, e, m) == Between(o, e, m)
    ensures forall last :: EntryEnd(o, last) == if o.arrayOmitComma || last then "\n" else ",\n"
  {
    SpacesAre(m - |e.key|);
  }

  /** The text of the first entry, and where its parts lie. */
  lemma FirstLine(o: Options, indent: nat, pre: string, e: Entry, m: nat, last: bool, rest: string) returns (p: nat, after: nat)
    requires o.indentation != "" && |e.key| <= m
    ensures var line := Indent(o, indent) + KeyText(o, e.key) + ColonText(o, e, m) + ValueText(o, indent, e.value) + EntryEnd(o, last);
            after == |pre + line| && LineAt(o, indent, pre + line + rest, e, m, |pre|, p, after, last)
  {
    hide ValueText, KeyText, Indent, ColonText, EntryEnd, Between;
    IndentIs(o, indent);
    BetweenIs(o, e, m);
    var head, v, end := Indent(o, indent) + KeyText(o, e.key) + ColonText(o, e, m), ValueText(o, indent, e.value), EntryEnd(o, last);
    var t := pre + (head + v + end) + rest;
    p, after := |pre| + |head|, |pre| + |head| + |v| + |end|;
    assert t == pre + head + (v + end + rest);
    PieceAt(pre, head, v + end + rest);
    assert t == (pre + head) + v + (end + rest);
    PieceAt(pre + head, v, end + rest);
    assert t == (pre + head + v) + end + rest;
    PieceAt(pre + head + v, end, rest);
  }

  lemma {:induction false} EntryLines(o: Options, indent: nat, pre: string, es: seq<Entry>, m: nat) returns (starts: seq<nat>, values: seq<nat>)
    requires o.indentation != "" && forall i :: 0 <= i < |es| ==> |es[i].key| <= m
    ensures Lines(o, indent, pre + EntriesText(o, indent, es, m), es, m, starts, values) && (es != [] ==> starts[0] == |pre|)
    decreases |es|
  {
    hide ValueText, KeyText, Indent, ColonText, EntryEnd, LineAt;
    if es == [] {
      starts, values := [], [];
    } else {
      var e, rest := es[0], EntriesText(o, indent, es[1..], m);
      var line := Indent(o, indent) + KeyText(o, e.key) + ColonText(o, e, m) + ValueText(o, indent, e.value) + EntryEnd(o, |es| == 1);
      var t := pre + EntriesText(o, indent, es, m);
      assert t == pre + line + rest;
      var p, after := FirstLine(o, indent, pre, e, m, |es| == 1, rest);
      assert forall i :: 0 <= i < |es[1..]| ==> es[1..][i] == es[i + 1];
      var starts', values' := EntryLines(o, indent, pre + line, es[1..], m);
      starts, values := [|pre|] + starts', [p] + values';
      if |es| == 1 { assert rest == "" && |t| == after; }
      LinesMore(o, indent, t, es, m, |pre|, p, after, starts', values');
    }
  }

  lemma LinesMore(o: Options, indent: nat, t: string, es: seq<Entry>, m: nat, q: nat, p: nat, after: nat, starts: seq<nat>, values: seq<nat>)
    requires es != [] && (forall i :: 0 <= i < |es| ==> |es[i].key| <= m) && forall i :: 0 <= i < |es[1..]| ==> es[1..][i] == es[i + 1]
    requires LineAt(o, indent, t, es[0], m, q, p, after, |es| == 1) && Lines(o, indent, t, es[1..], m, starts, values)
    requires after == (if |es| == 1 then |t| else starts[0]) && |es[1..]| == |es| - 1
    ensures Lines(o, indent, t, es, m, [q] + starts, [p] + values)
  {
    hide LineAt;
    var all, rest := [q] + starts, es[1..];
    forall k | 0 <= k < |es| ensures LineAt(o, indent, t, es[k], m, all[k], ([p] + values)[k], LineEnd(all, t, k), k + 1 == |es|) {
      if k > 0 {
        assert LineAt(o, indent, t, rest[k - 1], m, starts[k - 1], values[k - 1], LineEnd(starts, t, k - 1), k == |rest|);
      }
    }
  }

  /** A pretty object is a brace, its lines, and a brace under the place where it began. */
  lemma ObjectLines(o: Options, indent: nat, es: seq<Entry>) returns (m: nat, body: string, starts: seq<nat>, values: seq<nat>)
    requires o.indentation != "" && es != []
    ensures Longest(es, m) && ValueText(o, indent, Object(es)) == body + Times(o.indentation, indent) + "}"
    ensures Lines(o, indent + 1, body, es, m, starts, values) && starts[0] == 2 && LooksAt(body, "{\n")
  {
    hide EntriesText, Indent, LongestKey;
    LongestIs(es);
    m := LongestKey(es);
    IndentIs(o, indent);
    starts, values := EntryLines(o, indent + 1, "{\n", es, m);
    body := "{\n" + EntriesText(o, indent + 1, es, m);
  }

  /** The line of `e` begins at `q`, behind a newline: indentation and key; and its value stands at `p`. */
  predicate KeyAndValueAt(o: Options, indent: nat, t: string, e: Entry, q: nat, p: nat) {
    var k := q + |o.indentation| * indent;
    && 0 < q <= k && k + |KeyText(o, e.key)| < p <= |t|
    && t[q - 1] == '\n'
    && t[q..k] == Times(o.indentation, indent)
    && t[k..k + |KeyText(o, e.key)|] == KeyText(o, e.key)
    && ValueText(o, indent, e.value) <= t[p..]
  }

  /** From a colon at `c` to `p` there are blanks, at least one. */
  predicate BlanksBehindColon(t: string, c: nat, p: nat) {
    c + 2 <= p <= |t| && t[c] == ':' && forall j :: c < j < p ==> t[j] == ' '
  }

  /** The column of a place on the line that begins at `q`. */
  function Column(p: int, q: int): int {
    p - q
  }

  /** What quotes and escapes add to a key. */
  function Overhead(o: Options, key: string): int {
    |KeyText(o, key)| - |key|
  }

  /** Where the key of `e` ends, if its line begins at `q`. */
  function KeyEnd(o: Options, indent: nat, e: Entry, q: nat): nat {
    q + |o.indentation| * indent + |KeyText(o, e.key)|
  }

  predicate PlacesOf(o: Options, indent: nat, t: string, e: Entry, m: nat, q: nat, p: nat) {
    && KeyAndValueAt(o, indent, t, e, q, p)
    && (!NoColon(o, e.value) ==> p == KeyEnd(o, indent, e, q) + 2 + (m - |e.key|) && BlanksBehindColon(t, KeyEnd(o, indent, e, q), p))
  }

  lemma {:induction false} Blanks(n: nat)
    ensures forall j :: 0 <= j < n ==> Times(" ", n)[j] == ' '
    decreases n
  {
    if n > 0 { Blanks(n - 1); }
  }

  lemma LinePlaces(o: Options, indent: nat, t: string, e: Entry, m: nat, q: nat, p: nat, after: nat, last: bool)
    requires |e.key| <= m && o.objectAlignValues && LineAt(o, indent, t, e, m, q, p, after, last) && 0 < q <= |t| && t[q - 1] == '\n'
    ensures PlacesOf(o, indent, t, e, m, q, p)
  {
    hide ValueText, KeyText, Times, BlanksBehindColon;
    var ind, key, b := Times(o.indentation, indent), KeyText(o, e.key), Between(o, e, m);
    assert t[q..p] == ind + key + b;
    Parts(t, q, p, ind, key, b);
    ValueHere(t, p, ValueText(o, indent, e.value));
    if !NoColon(o, e.value) { BlanksAre(t, q + |ind| + |key|, p, m - |e.key|); }
  }

  lemma Parts(t: string, q: nat, p: nat, a: string, b: string, c: string)
    requires q <= p <= |t| && t[q..p] == a + b + c
    ensures p == q + |a| + |b| + |c|
    ensures t[q..q + |a|] == a && t[q + |a|..q + |a| + |b|] == b && t[q + |a| + |b|..p] == c
  {
    ThreeParts(a, b, c);
    SliceOf(t, q, p, 0, |a|);
    SliceOf(t, q, p, |a|, |a| + |b|);
    SliceOf(t, q, p, |a| + |b|, |a| + |b| + |c|);
  }

  lemma ThreeParts(a: string, b: string, c: string)
    ensures var s := a + b + c; |s| == |a| + |b| + |c| && s[0..|a|] == a && s[|a|..|a| + |b|] == b && s[|a| + |b|..|a| + |b| + |c|] == c
  {
    PieceAt(a, b, c);
    assert (a + b + c)[|a| + |b|..] == c;
  }

  lemma SliceOf(t: string, q: nat, p: nat, j: nat, k: nat)
    requires q <= p <= |t| && j <= k <= p - q
    ensures t[q..p][j..k] == t[q + j..q + k]
  {
    var a, b := t[q..p][j..k], t[q + j..q + k];
    forall i | 0 <= i < k - j ensures a[i] == b[i] { assert a[i] == t[q + (j + i)]; }
  }

  lemma BlanksAre(t: string, c: nat, p: nat, n: nat)
    requires c <= p <= |t| && t[c..p] == ": " + Times(" ", n)
    ensures p == c + 2 + n && BlanksBehindColon(t, c, p)
  {
    Blanks(n);
    var b := ": " + Times(" ", n);
    assert |b| == p - c;
    forall j | 0 <= j < |b| ensures t[c + j] == b[j] { assert t[c..p][j] == t[c + j]; }
    assert t[c] == b[0];
    forall j | c < j < p ensures t[j] == ' ' { assert t[c + (j - c)] == b[j - c]; }
  }

  lemma LineBounds(o: Options, indent: nat, t: string, e: Entry, m: nat, q: nat, p: nat, after: nat, last: bool)
    requires |e.key| <= m && LineAt(o, indent, t, e, m, q, p, after, last)
    ensures q <= |t|
  {
  }

  lemma ValueHere(t: string, p: nat, v: string)
    requires p + |v| <= |t| && t[p..p + |v|] == v
    ensures v <= t[p..]
  {
  }

  lemma LineEnds(o: Options, indent: nat, t: string, e: Entry, m: nat, q: nat, p: nat, after: nat, last: bool)
    requires |e.key| <= m && LineAt(o, indent, t, e, m, q, p, after, last)
    ensures 0 < after <= |t| && t[after - 1] == '\n'
  {
    hide ValueText, KeyText, Times, Between;
    var v := ValueText(o, indent, e.value);
    var end := t[p + |v|..after];
    assert t[after - 1] == end[|end| - 1];
  }

  /** Where values are aligned, the values of all entries with a colon whose keys are printed with the same overhead
      start in the same column; behind the colon stand blanks only; and behind a longest key there is one. */
  lemma ValuesAreAligned(o: Options, indent: nat, es: seq<Entry>) returns (body: string, starts: seq<nat>, values: seq<nat>)
    requires o.indentation != "" && o.objectAlignValues && es != []
    ensures body <= ValueText(o, indent, Object(es)) && |starts| == |values| == |es|
    ensures forall k :: 0 <= k < |es| ==> KeyAndValueAt(o, indent + 1, body, es[k], starts[k], values[k])
    ensures forall k :: 0 <= k < |es| && !NoColon(o, es[k].value) ==> BlanksBehindColon(body, KeyEnd(o, indent + 1, es[k], starts[k]), values[k])
    ensures forall k, l :: 0 <= k < |es| && 0 <= l < |es| && !NoColon(o, es[k].value) && !NoColon(o, es[l].value) ==>
              (Overhead(o, es[k].key) == Overhead(o, es[l].key) ==> Column(values[k], starts[k]) == Column(values[l], starts[l]))
    ensures forall k :: 0 <= k < |es| && !NoColon(o, es[k].value) ==>
              ((forall l :: 0 <= l < |es| ==> |es[l].key| <= |es[k].key|) ==> values[k] == KeyEnd(o, indent + 1, es[k], starts[k]) + 2)
  {
    hide ValueText, KeyText, LineAt, Times, KeyAndValueAt, BlanksBehindColon;
    var m;
    m, body, starts, values := ObjectLines(o, indent, es);
    forall k | 0 <= k < |es| ensures PlacesOf(o, indent + 1, body, es[k], m, starts[k], values[k]) {
      LineOf(o, indent + 1, body, es, m, starts, values, k);
    }
  }

  lemma LineOf(o: Options, indent: nat, t: string, es: seq<Entry>, m: nat, starts: seq<nat>, values: seq<nat>, k: nat)
    requires k < |es| && (forall i :: 0 <= i < |es| ==> |es[i].key| <= m) && Lines(o, indent, t, es, m, starts, values)
    requires starts[0] == 2 && LooksAt(t, "{\n") && o.objectAlignValues
    ensures PlacesOf(o, indent, t, es[k], m, starts[k], values[k])
  {
    hide LineAt, PlacesOf, NoColon;
    assert LineAt(o, indent, t, es[k], m, starts[k], values[k], LineEnd(starts, t, k), k + 1 == |es|);
    LineBounds(o, indent, t, es[k], m, starts[k], values[k], LineEnd(starts, t, k), k + 1 == |es|);
    if k > 0 {
      assert LineAt(o, indent, t, es[k - 1], m, starts[k - 1], values[k - 1], LineEnd(starts, t, k - 1), k == |es|);
      LineEnds(o, indent, t, es[k - 1], m, starts[k - 1], values[k - 1], starts[k], false);
    } else {
      assert t[1] == "{\n"[1] == '\n';
    }
    LinePlaces(o, indent, t, es[k], m, starts[k], values[k], LineEnd(starts, t, k), k + 1 == |es|);
  }

  // ---- Arrays and compact objects -------------------------------------------------------------------------

  /** The strings one behind the other, with `sep` between two. */
  function Join(xs: seq<string>, sep: string): string {
    if xs == [] then "" else if |xs| == 1 then xs[0] else xs[0] + sep + Join(xs[1..], sep)
  }

  /** The texts of the elements, with `lead` in front of each. */
  function Texts(o: Options, indent: nat, items: seq<Value>, lead: string): (xs: seq<string>)
    ensures |xs| == |items|
  {
    seq(|items|, i requires 0 <= i < |items| => lead + ValueText(o, indent, items[i]))
  }

  lemma TextsTail(o: Options, indent: nat, items: seq<Value>, lead: string)
    requires items != []
    ensures var xs := Texts(o, indent, items, lead); xs[0] == lead + ValueText(o, indent, items[0]) && xs[1..] == Texts(o, indent, items[1..], lead)
  {
  }

  lemma {:induction false} ItemsJoin(o: Options, indent: nat, items: seq<Value>, sp: Spacing)
    requires items != []
    ensures ItemsText(o, indent, items, sp) == Join(Texts(o, indent, items, sp.lead), sp.between) + sp.last
    decreases |items|
  {
    hide ValueText, Texts;
    TextsTail(o, indent, items, sp.lead);
    var xs := Texts(o, indent, items, sp.lead);
    if |items| == 1 {
      assert items[1..] == [] && ItemsText(o, indent, items[1..], sp) == "";
      assert sp.lead + ValueText(o, indent, items[0]) + sp.last + "" == xs[0] + sp.last;
    } else {
      ItemsJoin(o, indent, items[1..], sp);
      JoinMore(sp.lead, ValueText(o, indent, items[0]), sp.between, Join(xs[1..], sp.between), sp.last);
    }
  }

  lemma JoinMore(lead: string, v: string, sep: string, rest: string, last: string)
    ensures lead + v + sep + (rest + last) == (lead + v) + sep + rest + last
  {
  }

  function Estimate(items: seq<Value>): nat {
    if items == [] then 0 else (if items[0].Str? then |items[0].s| + 4 else 7) + Estimate(items[1..])
  }

  /** Short enough for one line: up to 16 numbers, or up to four elements that are no filled arrays or objects and are
      estimated to take less than 60 characters. */
  predicate OnOneLine(items: seq<Value>) {
    || (|items| <= 16 && forall i :: 0 <= i < |items| ==> items[i].Int? || items[i].Float?)
    || (|items| <= 4 && Estimate(items) < 60 &&
        forall i :: 0 <= i < |items| ==> (items[i].Array? ==> items[i].items == []) && (items[i].Object? ==> items[i].entries == []))
  }

  lemma {:induction false} WidthIs(items: seq<Value>)
    ensures Width(items) == Estimate(items)
    decreases |items|
  {
    if items != [] { WidthIs(items[1..]); }
  }

  lemma OneLineIs(items: seq<Value>)
    ensures SimpleArray(items) <==> OnOneLine(items)
  {
    WidthIs(items);
    assert (forall v :: v in items ==> v.Int? || v.Float?) <==> forall i :: 0 <= i < |items| ==> items[i].Int? || items[i].Float?;
    assert (forall v :: v in items ==> Simple(v)) <==> forall i :: 0 <= i < |items| ==> Simple(items[i]);
  }

  /** The four forms of an array. */
  lemma ArrayForms(o: Options, indent: nat, items: seq<Value>)
    ensures ValueText(o, indent, Array(items)) ==
            if items == [] then if o.indentation == "" then "[]" else "[ ]"
            else if o.indentation == "" then "[" + Join(Texts(o, indent + 1, items, ""), ",") + "]"
            else if OnOneLine(items) then "[ " + Join(Texts(o, indent + 1, items, ""), if o.arrayOmitComma then " " else ", ") + " ]"
            else "[\n" + Join(Texts(o, indent + 1, items, Times(o.indentation, indent + 1)), if o.arrayOmitComma then "\n" else ",\n") + "\n" +
                 Times(o.indentation, indent) + "]"
  {
    if items != [] {
      IndentIs(o, indent);
      IndentIs(o, indent + 1);
      OneLineIs(items);
      var sp := ArraySpacing(o, indent, items);
      ItemsJoin(o, indent + 1, items, sp);
      hide Texts, Join, ItemsText, Indent, Times, SimpleArray, OnOneLine;
      var joined, open, close := Join(Texts(o, indent + 1, items, sp.lead), sp.between), ArrayOpen(o, items), ArrayClose(o, indent, items);
      assert ValueText(o, indent, Array(items)) == open + (joined + sp.last) + close;
      Closed(open, joined, sp.last, close);
      assert "[" + joined + "" + "]" == "[" + joined + "]" && joined + "" == joined;
      if o.indentation != "" && OnOneLine(items) { assert open + joined + " " + "]" == open + joined + " ]"; }
      if o.indentation != "" && !OnOneLine(items) { assert open + joined + "\n" + (Times(o.indentation, indent) + "]") == open + joined + "\n" + Times(o.indentation, indent) + "]"; }
    }
  }

  lemma Closed(open: string, joined: string, last: string, close: string)
    ensures open + (joined + last) + close == open + joined + last + close
  {
  }

  function Pairs(o: Options, indent: nat, es: seq<Entry>): seq<string> {
    seq(|es|, i requires 0 <= i < |es| => KeyText(o, es[i].key) + ":" + ValueText(o, indent, es[i].value))
  }

  lemma {:induction false} PairsJoin(o: Options, indent: nat, es: seq<Entry>, m: nat)
    requires o.indentation == ""
    ensures EntriesText(o, indent, es, m) == Join(Pairs(o, indent, es), ",")
    decreases |es|
  {
    hide ValueText, KeyText, Times;
    if es != [] {
      IndentIs(o, indent);
      assert Times("", indent) == "";
      var xs := Pairs(o, indent, es);
      assert xs[1..] == Pairs(o, indent, es[1..]);
      var e := es[0];
      PairsJoin(o, indent, es[1..], m);
      assert "" + KeyText(o, e.key) + ":" + ValueText(o, indent, e.value) + "" == xs[0];
      if |es| == 1 { assert es[1..] == [] && Pairs(o, indent, es[1..]) == []; }
    }
  }

  /** A compact object, and an empty one. */
  lemma CompactObject(o: Options, indent: nat, es: seq<Entry>)
    ensures o.indentation == "" ==> ValueText(o, indent, Object(es)) == "{" + Join(Pairs(o, indent + 1, es), ",") + "}"
    ensures o.indentation != "" && es == [] ==> ValueText(o, indent, Object(es)) == "{ }"
  {
    if o.indentation == "" {
      IndentIs(o, indent);
      assert Times("", indent) == "";
      if es != [] { PairsJoin(o, indent + 1, es, LongestKey(es)); } else { assert Pairs(o, indent + 1, es) == []; }
    }
  }

  /** A whole dump: the value, and a newline behind it if the options ask for one and the layout is pretty. */
  lemma DumpEnds(o: Options, v: Value)
    ensures Dump(o, v) == if o.endWithNewline && o.indentation != "" then ValueText(o, 0, v) + "\n" else ValueText(o, 0, v)
  {
    hide ValueText;
    assert ValueText(o, 0, v) + "" == ValueText(o, 0, v);
  }

  // ---- Strings and keys -----------------------------------------------------------------------------------

  /** How a character is written between quotes. */
  lemma CharacterForms(c: char)
    requires c as int < 256
    ensures EscapeChar(c) ==
            if c == '"' then "\\\"" else if c == '\\' then "\\\\"
            else if c as int == 0 then "\\0" else if c as int == 8 then "\\b" else if c as int == 9 then "\\t"
            else if c as int == 10 then "\\n" else if c as int == 12 then "\\f" else if c as int == 13 then "\\r"
            else if c as int < 16 then "\\u000" + ["0123456789abcdef"[c as int]]
            else if c as int < 32 then "\\u001" + ["0123456789abcdef"[c as int - 16]]
            else [c]
  {
    if c as int < 32 { ControlForm(c as int); }
    hide Unicode16;
  }

  lemma ControlForm(n: nat)
    requires n < 32
    ensures Unicode16(n) == if n < 16 then "\\u000" + ["0123456789abcdef"[n]] else "\\u001" + ["0123456789abcdef"[n - 16]]
  {
    hide HexChar;
    HexCharIs(0);
    HexCharIs(1);
    HexCharIs(n % 16);
    assert n / 0x1000 == 0 && n / 0x100 % 16 == 0 && n / 0x10 % 16 == n / 16;
  }

  lemma HexCharIs(n: nat)
    requires n < 16
    ensures HexChar(n) == "0123456789abcdef"[n]
    ensures n == 0 ==> HexChar(n) == '0'
    ensures n == 1 ==> HexChar(n) == '1'
  {
    var digits := "0123456789abcdef";
    if n < 10 { assert digits[n] as int == '0' as int + n; } else { assert digits[n] as int == 'a' as int + n - 10; }
  }

  predicate HasNewline(s: string) {
    exists i :: 0 <= i < |s| && s[i] == '\n'
  }

  predicate HasThreeQuotes(s: string) {
    exists i :: 0 <= i < |s| - 2 && ThreeQuotesAt(s, i)
  }

  predicate ThreeQuotesAt(s: string, i: nat)
    requires i + 2 < |s|
  {
    s[i] == '"' && s[i + 1] == '"' && s[i + 2] == '"'
  }

  /** A string of several lines and at least 240 characters stands between triple quotes, if the options allow it and
      it holds none; any other between quotes. */
  lemma StringForms(o: Options, s: string)
    ensures StringText(o, s) ==
            if o.strPythonMultiline && HasNewline(s) && |s| >= 240 && !HasThreeQuotes(s) then "\"\"\"" + s + "\"\"\"" else "\"" + Escaped(s) + "\""
  {
    hide Escaped;
    NewlineIs(s);
    QuotesAre(s);
  }

  lemma NewlineIs(s: string)
    ensures Contains(s, "\n") <==> HasNewline(s)
  {
    if Contains(s, "\n") {
      var i :| 0 <= i <= |s| && LooksAt(s[i..], "\n");
      assert s[i] == s[i..][0] == "\n"[0];
    }
    if i :| 0 <= i < |s| && s[i] == '\n' { assert LooksAt(s[i..], "\n"); }
  }

  lemma QuotesAre(s: string)
    ensures Contains(s, "\"\"\"") <==> HasThreeQuotes(s)
  {
    var q := "\"\"\"";
    if Contains(s, q) {
      var i :| 0 <= i <= |s| && LooksAt(s[i..], q);
      assert s[i..][0] == q[0] && s[i..][1] == q[1] && s[i..][2] == q[2];
      assert ThreeQuotesAt(s, i);
    }
    if i :| 0 <= i < |s| - 2 && ThreeQuotesAt(s, i) { assert s[i..][..3] == q; assert LooksAt(s[i..], q); }
  }

  predicate Identifier(key: string) {
    key != "" && !('0' <= key[0] <= '9') &&
    forall i :: 0 <= i < |key| ==> key[i] == '_' || 'a' <= key[i] <= 'z' || 'A' <= key[i] <= 'Z' || '0' <= key[i] <= '9'
  }

  /** A key without NUL stands bare exactly if the options allow it and it is an identifier; otherwise it is written as
      a string. */
  lemma KeyForms(o: Options, key: string)
    requires forall i :: 0 <= i < |key| ==> key[i] != '\0'
    ensures KeyText(o, key) == if o.identifiersKeys && Identifier(key) then key else StringText(o, key)
  {
    hide StringText;
    if key != "" { IdentifierTail(key[1..]); }
    assert forall i :: 0 < i < |key| ==> key[i] == key[1..][i - 1];
  }

  lemma {:induction false} IdentifierTail(s: string)
    requires forall i :: 0 <= i < |s| ==> s[i] != '\0'
    ensures AllIdentChars(s) <==> forall i :: 0 <= i < |s| ==> IdentChar(s[i])
    decreases |s|
  {
    if s != "" {
      IdentifierTail(s[1..]);
      assert forall i :: 0 < i < |s| ==> s[i] == s[1..][i - 1];
      assert (forall i :: 0 <= i < |s[1..]| ==> IdentChar(s[1..][i])) <==> forall i :: 0 < i < |s| ==> IdentChar(s[i]);
    }
  }
}
