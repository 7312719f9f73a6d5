/** The writer of configuru.hpp as it is written: loops that append to an output string. Every method is
    proved to append the text that ConfigLayout describes. */
module ConfigWriter {
  import opened ConfigText
  import L = ConfigLayout

  // ---- Single rounds of the loops ---------------------------------------------------------------------

  lemma EscapedRound(s: string)
    requires s != []
    ensures L.Escaped(s) == L.EscapeChar(s[0]) + L.Escaped(s[1..])
  {
  }

  lemma ItemsRound(o: Options, indent: nat, items: seq<Value>, i: nat, sp: L.Spacing)
    requires i < |items|
    ensures L.ItemsText(o, indent, items[i..], sp) ==
            sp.lead + L.ValueText(o, indent, items[i]) + (if i + 1 == |items| then sp.last else sp.between) + L.ItemsText(o, indent, items[i + 1..], sp)
  {
    hide L.ValueText;
    assert items[i..][1..] == items[i + 1..];
  }

  lemma EntriesRound(o: Options, indent: nat, entries: seq<Entry>, i: nat, longest: nat)
    requires i < |entries|
    ensures L.EntriesText(o, indent, entries[i..], longest) ==
            L.Indent(o, indent) + L.KeyText(o, entries[i].key) + L.ColonText(o, entries[i], longest) + L.ValueText(o, indent, entries[i].value) +
            L.EntryEnd(o, i + 1 == |entries|) + L.EntriesText(o, indent, entries[i + 1..], longest)
  {
    hide L.ValueText, L.KeyText, L.ColonText, L.EntryEnd, L.Indent;
    assert entries[i..][1..] == entries[i + 1..];
  }

  lemma WidthRound(items: seq<Value>, i: nat)
    requires i < |items|
    ensures L.Width(items[i..]) == (if items[i].Str? then 2 + |items[i].s| else 5) + 2 + L.Width(items[i + 1..])
  {
    assert items[i..][1..] == items[i + 1..];
  }

  lemma LongestRound(entries: seq<Entry>, i: nat)
    requires i < |entries|
    ensures var rest := L.LongestKey(entries[i + 1..]);
            L.LongestKey(entries[i..]) == if |entries[i].key| > rest then |entries[i].key| else rest
  {
    assert entries[i..][1..] == entries[i + 1..];
  }

  lemma SpacesRound(n: int)
    requires n > 0
    ensures L.Spaces(n) == " " + L.Spaces(n - 1)
  {
  }

  lemma IndentRound(o: Options, n: nat)
    requires n > 0
    ensures L.Indent(o, n) == o.indentation + L.Indent(o, n - 1)
  {
  }

  lemma {:induction false} CompactIndent(o: Options, n: nat)
    requires o.Compact()
    ensures L.Indent(o, n) == ""
    decreases n
  {
    if n > 0 { CompactIndent(o, n - 1); }
  }

  /** Only aligned values depend on the longest key. */
  lemma {:induction false} LongestUnused(o: Options, indent: nat, entries: seq<Entry>, longest: nat, other: nat)
    requires o.Compact() || !o.objectAlignValues
    ensures L.EntriesText(o, indent, entries, longest) == L.EntriesText(o, indent, entries, other)
    decreases |entries|
  {
    hide L.ValueText, L.KeyText, L.EntryEnd, L.Indent;
    if entries != [] { LongestUnused(o, indent, entries[1..], longest, other); }
  }

  lemma Push(whole: string, a: string, x: string, rest: string)
    requires whole == a + (x + rest)
    ensures whole == (a + x) + rest
  {
  }

  lemma PushFive(whole: string, a: string, s: string, b: string, c: string, d: string, e: string, f: string, rest: string)
    requires whole == a + s && s == b + c + d + e + f + rest
    ensures whole == a + b + c + d + e + f + rest
  {
  }

  lemma PushThree(whole: string, a: string, s: string, b: string, c: string, d: string, rest: string)
    requires whole == a + s && s == b + c + d + rest
    ensures whole == a + b + c + d + rest
  {
  }

  /** is_identifier. */
  method IsIdentifier(s: string) returns (b: bool)
    ensures b <==> L.IsIdentifier(s)
  {
    hide L.AllIdentChars;
    if !IdentStarter(Peek(s, 0)) { return false; }
    var p := 1;
    while Peek(s, p) != NUL
      invariant 1 <= p <= |s| && (L.AllIdentChars(s[1..]) <==> L.AllIdentChars(s[p..]))
      decreases |s| - p
    {
      IdentCharsRound(s[p..]);
      assert s[p..][1..] == s[p + 1..];
      if !IdentChar(s[p]) { return false; }
      p := p + 1;
    }
    IdentCharsRound(s[p..]);
    return true;
  }

  lemma IdentCharsRound(s: string)
    ensures L.AllIdentChars(s) <==> Peek(s, 0) == NUL || (IdentChar(s[0]) && L.AllIdentChars(s[1..]))
  {
  }

  class Writer {
    const options: Options
    var out: string

    constructor (options: Options)
      ensures this.options == options && out == ""
    {
      this.options := options;
      out := "";
    }

    method WriteIndent(indent: nat)
      modifies `out
      ensures out == old(out) + L.Indent(options, indent)
    {
      hide L.Indent;
      if options.Compact() {
        CompactIndent(options, indent);
        return;
      }
      for i := 0 to indent
        invariant out + L.Indent(options, indent - i) == old(out) + L.Indent(options, indent)
      {
        IndentRound(options, indent - i);
        Push(out + L.Indent(options, indent - i), out, options.indentation, L.Indent(options, indent - i - 1));
        out := out + options.indentation;
      }
      CompactIndent0(options);
    }

    // ---- Strings ------------------------------------------------------------------------------------

    method WriteHexDigit(num: nat)
      requires num < 16
      modifies `out
      ensures out == old(out) + [L.HexChar(num)]
    {
      if num < 10 {
        out := out + [('0' as int + num) as char];
      } else {
        out := out + [('a' as int + num - 10) as char];
      }
    }

    method WriteUnicode16(c: nat)
      requires c < 0x1_0000
      modifies `out
      ensures out == old(out) + L.Unicode16(c)
    {
      hide L.HexChar;
      out := out + "\\u";
      WriteHexDigit(c / 0x1000 % 16);
      WriteHexDigit(c / 0x100 % 16);
      WriteHexDigit(c / 0x10 % 16);
      WriteHexDigit(c % 16);
    }

    /** One character that cannot stand for itself. */
    method WriteEscaped(c: char)
      requires !L.Safe(c)
      modifies `out
      ensures out == old(out) + L.EscapeChar(c)
    {
      if c == '\\' {
        out := out + "\\\\";
      } else if c == '"' {
        out := out + "\\\"";
      } else if c == NUL {
        out := out + "\\0";
      } else if c == BACKSPACE {
        out := out + "\\b";
      } else if c == FORM_FEED {
        out := out + "\\f";
      } else if c == '\n' {
        out := out + "\\n";
      } else if c == '\r' {
        out := out + "\\r";
      } else if c == '\t' {
        out := out + "\\t";
      } else {
        WriteUnicode16(c as int);
      }
    }

    method WriteQuotedString(str: string)
      modifies `out
      ensures out == old(out) + L.QuotedText(str)
    {
      hide L.Escaped, L.EscapeChar;
      ghost var whole := old(out) + "\"" + L.Escaped(str);
      out := out + "\"";
      var ptr := 0;
      assert str[0..] == str;
      while ptr < |str|
        invariant 0 <= ptr <= |str| && whole == out + L.Escaped(str[ptr..])
      {
        var start := ptr;
        assert out + str[start..ptr] == out;
        while ptr < |str| && L.Safe(str[ptr])
          invariant start <= ptr <= |str| && whole == out + str[start..ptr] + L.Escaped(str[ptr..])
        {
          SafeStep(whole, out, str, start, ptr);
          ptr := ptr + 1;
        }
        out := out + str[start..ptr];
        if ptr == |str| { break; }
        EscapedRound(str[ptr..]);
        assert str[ptr..][1..] == str[ptr + 1..];
        Push(whole, out, L.EscapeChar(str[ptr]), L.Escaped(str[ptr + 1..]));
        WriteEscaped(str[ptr]);
        ptr := ptr + 1;
      }
      assert whole == out by { NothingEscaped(); assert str[ptr..] == []; }
      out := out + "\"";
      assert old(out) + "\"" + L.Escaped(str) + "\"" == old(out) + ("\"" + L.Escaped(str) + "\"");
    }

    method WriteVerbatimString(str: string)
      modifies `out
      ensures out == old(out) + L.VerbatimText(str)
    {
      out := out + "\"\"\"";
      out := out + str;
      out := out + "\"\"\"";
      assert out == old(out) + ("\"\"\"" + str + "\"\"\"");
    }

    method WriteString(str: string)
      modifies `out
      ensures out == old(out) + L.StringText(options, str)
    {
      hide L.QuotedText, L.VerbatimText, L.Contains;
      if !options.strPythonMultiline || !L.Contains(str, "\n") || |str| < L.LONG_LINE || L.Contains(str, "\"\"\"") {
        WriteQuotedString(str);
      } else {
        WriteVerbatimString(str);
      }
    }

    method WriteKey(key: string)
      modifies `out
      ensures out == old(out) + L.KeyText(options, key)
    {
      hide L.StringText, L.IsIdentifier;
      var identifier := IsIdentifier(key);
      if options.identifiersKeys && identifier {
        out := out + key;
      } else {
        WriteString(key);
      }
    }

    // ---- Values -------------------------------------------------------------------------------------

    /** is_simple_array: up to 16 numbers, or up to four values that fit the line. */
    method IsSimpleArray(items: seq<Value>) returns (b: bool)
      ensures b <==> L.SimpleArray(items)
    {
      hide L.Width;
      if |items| <= 16 {
        var numbers := true;
        for i := 0 to |items|
          invariant numbers <==> forall j :: 0 <= j < i ==> items[j].Int? || items[j].Float?
        {
          if !items[i].Int? && !items[i].Float? { numbers := false; }
        }
        if numbers { return true; }
      }
      if |items| > 4 { return false; }
      var width := 0;
      assert items[0..] == items;
      for i := 0 to |items|
        invariant forall j :: 0 <= j < i ==> L.Simple(items[j])
        invariant width + L.Width(items[i..]) == L.Width(items)
      {
        WidthRound(items, i);
        if !L.Simple(items[i]) { return false; }
        width := width + (if items[i].Str? then 2 + |items[i].s| else 5) + 2;
      }
      assert L.Width(items[|items|..]) == 0 by { NoWidth(); assert items[|items|..] == []; }
      return width < 60;
    }

    method WriteArrayItems(indent: nat, items: seq<Value>, sp: L.Spacing)
      modifies `out
      ensures out == old(out) + L.ItemsText(options, indent, items, sp)
      decreases items, 1
    {
      hide L.ItemsText, L.ValueText;
      ghost var whole := old(out) + L.ItemsText(options, indent, items, sp);
      assert items[0..] == items;
      for i := 0 to |items|
        invariant whole == out + L.ItemsText(options, indent, items[i..], sp)
      {
        ItemsRound(options, indent, items, i, sp);
        var between := if i + 1 == |items| then sp.last else sp.between;
        PushThree(whole, out, L.ItemsText(options, indent, items[i..], sp), sp.lead, L.ValueText(options, indent, items[i]), between,
                  L.ItemsText(options, indent, items[i + 1..], sp));
        out := out + sp.lead;
        WriteValue(indent, items[i]);
        out := out + between;
      }
      NoItems(options, indent, items[|items|..], sp);
    }

    method WriteArray(indent: nat, items: seq<Value>)
      modifies `out
      ensures out == old(out) + L.ValueText(options, indent, Array(items))
      decreases items, 2
    {
      hide L.ItemsText, L.SimpleArray, L.Indent;
      if items == [] {
        out := out + if options.Compact() then "[]" else "[ ]";
        return;
      }
      var simple := IsSimpleArray(items);
      out := out + if options.Compact() then "[" else if simple then "[ " else "[\n";
      WriteArrayItems(indent + 1, items, L.ArraySpacing(options, indent, items));
      if !options.Compact() && !simple { WriteIndent(indent); }
      out := out + "]";
      var sp := L.ArraySpacing(options, indent, items);
      Assemble(old(out), L.ArrayOpen(options, items), L.ItemsText(options, indent + 1, items, sp), L.ArrayClose(options, indent, items), "]",
               if !options.Compact() && !simple then L.Indent(options, indent) else "");
    }

    method LongestKey(entries: seq<Entry>) returns (longest: nat)
      ensures longest == L.LongestKey(entries)
    {
      hide L.LongestKey;
      longest := 0;
      assert entries[0..] == entries;
      for i := 0 to |entries|
        invariant var rest := L.LongestKey(entries[i..]); L.LongestKey(entries) == if rest > longest then rest else longest
      {
        LongestRound(entries, i);
        longest := if |entries[i].key| > longest then |entries[i].key| else longest;
      }
      NoLongest();
      assert entries[|entries|..] == [];
    }

    method WriteColon(e: Entry, longest: nat)
      modifies `out
      ensures out == old(out) + L.ColonText(options, e, longest)
    {
      hide L.Spaces;
      if options.Compact() {
        out := out + ":";
      } else if options.omitColonBeforeObject && e.value.Object? && e.value.entries != [] {
        out := out + " ";
      } else {
        out := out + ": ";
        if options.objectAlignValues { WriteSpaces(|e.key|, longest); }
      }
    }

    method WriteSpaces(from: nat, to: nat)
      modifies `out
      ensures out == old(out) + L.Spaces(to - from)
    {
      hide L.Spaces;
      var j := from;
      while j < to
        invariant from <= j && out + L.Spaces(to - j) == old(out) + L.Spaces(to - from)
      {
        SpacesRound(to - j);
        Push(out + L.Spaces(to - j), out, " ", L.Spaces(to - j - 1));
        out := out + " ";
        j := j + 1;
      }
      NoSpaces(to - j);
    }

    method WriteObjectContents(indent: nat, entries: seq<Entry>)
      modifies `out
      ensures out == old(out) + L.EntriesText(options, indent, entries, L.LongestKey(entries))
      decreases entries, 1
    {
      hide L.EntriesText, L.ValueText, L.KeyText, L.ColonText, L.LongestKey, L.Indent;
      var longest := 0;
      if !options.Compact() && options.objectAlignValues {
        longest := LongestKey(entries);
      } else {
        LongestUnused(options, indent, entries, L.LongestKey(entries), longest);
      }
      ghost var whole := old(out) + L.EntriesText(options, indent, entries, longest);
      assert entries[0..] == entries;
      for i := 0 to |entries|
        invariant whole == out + L.EntriesText(options, indent, entries[i..], longest)
      {
        var e := entries[i];
        EntriesRound(options, indent, entries, i, longest);
        PushFive(whole, out, L.EntriesText(options, indent, entries[i..], longest), L.Indent(options, indent), L.KeyText(options, e.key),
                 L.ColonText(options, e, longest), L.ValueText(options, indent, e.value), L.EntryEnd(options, i + 1 == |entries|),
                 L.EntriesText(options, indent, entries[i + 1..], longest));
        WriteIndent(indent);
        WriteKey(e.key);
        WriteColon(e, longest);
        WriteValue(indent, e.value);
        out := out + L.EntryEnd(options, i + 1 == |entries|);
      }
      NoEntries(options, indent, entries[|entries|..], longest);
    }

    method WriteObject(indent: nat, entries: seq<Entry>)
      modifies `out
      ensures out == old(out) + L.ValueText(options, indent, Object(entries))
      decreases entries, 2
    {
      hide L.EntriesText, L.LongestKey, L.Indent;
      if entries == [] {
        out := out + if options.Compact() then "{}" else "{ }";
        return;
      }
      out := out + if options.Compact() then "{" else "{\n";
      WriteObjectContents(indent + 1, entries);
      WriteIndent(indent);
      out := out + "}";
      Assemble(old(out), if options.Compact() then "{" else "{\n", L.EntriesText(options, indent + 1, entries, L.LongestKey(entries)),
               L.Indent(options, indent) + "}", "}", L.Indent(options, indent));
    }

    method WriteValue(indent: nat, v: Value)
      modifies `out
      ensures out == old(out) + L.ValueText(options, indent, v)
      decreases v, 0
    {
      hide L.StringText, L.IntText, L.ArraySpacing, L.SimpleArray, L.ItemsText, L.EntriesText, L.Indent;
      match v
      case Null => out := out + "null";
      case Bool(b) => out := out + if b then "true" else "false";
      case Int(i) => out := out + L.IntText(i);
      case Float(literal) => out := out + literal;
      case Str(s) => WriteString(s);
      case Array(items) => WriteArray(indent, items);
      case Object(entries) => WriteObject(indent, entries);
    }
  }

  lemma CompactIndent0(o: Options)
    ensures L.Indent(o, 0) == ""
  {
  }

  lemma SafeStep(whole: string, out: string, str: string, start: nat, ptr: nat)
    requires start <= ptr < |str| && L.Safe(str[ptr]) && whole == out + str[start..ptr] + L.Escaped(str[ptr..])
    ensures whole == out + str[start..ptr + 1] + L.Escaped(str[ptr + 1..])
  {
    hide L.Escaped;
    EscapedRound(str[ptr..]);
    assert str[ptr..][1..] == str[ptr + 1..];
    assert L.EscapeChar(str[ptr]) == [str[ptr]];
    assert str[start..ptr + 1] == str[start..ptr] + [str[ptr]];
  }

  lemma NothingEscaped()
    ensures L.Escaped("") == ""
  {
  }

  lemma NoWidth()
    ensures L.Width([]) == 0
  {
  }

  lemma NoLongest()
    ensures L.LongestKey([]) == 0
  {
  }

  lemma NoSpaces(n: int)
    requires n <= 0
    ensures L.Spaces(n) == ""
  {
  }

  lemma NoItems(o: Options, indent: nat, items: seq<Value>, sp: L.Spacing)
    requires items == []
    ensures L.ItemsText(o, indent, items, sp) == ""
  {
  }

  lemma NoEntries(o: Options, indent: nat, entries: seq<Entry>, longest: nat)
    requires entries == []
    ensures L.EntriesText(o, indent, entries, longest) == ""
  {
  }

  lemma Assemble(a: string, open: string, body: string, close: string, bracket: string, post: string)
    requires close == post + bracket
    ensures a + open + body + post + bracket == a + (open + body + close)
  {
  }

  /** dump_string. */
  method DumpString(v: Value, options: Options) returns (s: string)
    ensures s == L.Dump(options, v)
  {
    hide L.ValueText;
    var w := new Writer(options);
    w.WriteValue(0, v);
    if options.endWithNewline && !options.Compact() { w.out := w.out + "\n"; }
    s := w.out;
  }
}
