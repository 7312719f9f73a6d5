/** The text the writer of configuru.hpp produces for a value, as functions. */
module ConfigLayout {
  import opened ConfigText

  // ---- Strings ----------------------------------------------------------------------------------------

  function HexChar(n: nat): char
    requires n < 16
  {
    if n < 10 then ('0' as int + n) as char else ('a' as int + n - 10) as char
  }

  /** write_unicode_16. */
  function Unicode16(n: nat): string
    requires n < 0x1_0000
  {
    "\\u" + [HexChar(n / 0x1000), HexChar(n / 0x100 % 16), HexChar(n / 0x10 % 16), HexChar(n % 16)]
  }

  predicate Safe(c: char) {
    c as int >= 0x20 && c != '\\' && c != '"'
  }

  function EscapeChar(c: char): string {
    if c == '\\' then "\\\\"
    else if c == '"' then "\\\""
    else if c == NUL then "\\0"
    else if c == BACKSPACE then "\\b"
    else if c == FORM_FEED then "\\f"
    else if c == '\n' then "\\n"
    else if c == '\r' then "\\r"
    else if c == '\t' then "\\t"
    else if c as int < 0x20 then Unicode16(c as int)
    else [c]
  }

  function Escaped(s: string): string {
    if s == [] then [] else EscapeChar(s[0]) + Escaped(s[1..])
  }

  function QuotedText(s: string): string {
    "\"" + Escaped(s) + "\""
  }

  function VerbatimText(s: string): string {
    "\"\"\"" + s + "\"\"\""
  }

  predicate Contains(s: string, part: string) {
    exists i :: 0 <= i <= |s| && LooksAt(s[i..], part)
  }

  const LONG_LINE := 240

  predicate WrittenQuoted(o: Options, s: string) {
    !o.strPythonMultiline || !Contains(s, "\n") || |s| < LONG_LINE || Contains(s, "\"\"\"")
  }

  function StringText(o: Options, s: string): string {
    if WrittenQuoted(o, s) then QuotedText(s) else VerbatimText(s)
  }

  /** is_identifier, which sees the string up to its first NUL. */
  predicate IsIdentifier(s: string) {
    IdentStarter(Peek(s, 0)) && AllIdentChars(s[1..])
  }

  predicate AllIdentChars(s: string) {
    Peek(s, 0) == NUL || (IdentChar(s[0]) && AllIdentChars(s[1..]))
  }

  function KeyText(o: Options, key: string): string {
    if o.identifiersKeys && IsIdentifier(key) then key else StringText(o, key)
  }

  // ---- Numbers ----------------------------------------------------------------------------------------

  function Decimal(n: nat): (ds: string)
    ensures ds != [] && forall i :: 0 <= i < |ds| ==> IsDigit(ds[i])
  {
    if n < 10 then [('0' as int + n) as char] else Decimal(n / 10) + [('0' as int + n % 10) as char]
  }

  function IntText(i: int): string {
    if i < 0 then "-" + Decimal(-i) else Decimal(i)
  }

  // ---- Arrays and objects -----------------------------------------------------------------------------

  predicate Simple(v: Value) {
    !(v.Array? && v.items != []) && !(v.Object? && v.entries != [])
  }

  function Width(items: seq<Value>): nat {
    if items == [] then 0 else (if items[0].Str? then 2 + |items[0].s| else 5) + 2 + Width(items[1..])
  }

  /** is_simple_array: short enough for one line. */
  predicate SimpleArray(items: seq<Value>) {
    (|items| <= 16 && forall v :: v in items ==> v.Int? || v.Float?) ||
    (|items| <= 4 && (forall v :: v in items ==> Simple(v)) && Width(items) < 60)
  }

  function Indent(o: Options, n: nat): string {
    if n == 0 then [] else o.indentation + Indent(o, n - 1)
  }

  /** How the elements of an array are set apart: what comes before each, between two, and after the last. */
  datatype Spacing = Spacing(lead: string, between: string, last: string)

  function ArraySpacing(o: Options, indent: nat, items: seq<Value>): Spacing {
    if o.Compact() then Spacing("", ",", "")
    else if SimpleArray(items) then Spacing("", if o.arrayOmitComma then " " else ", ", " ")
    else Spacing(Indent(o, indent + 1), if o.arrayOmitComma then "\n" else ",\n", "\n")
  }

  function ArrayOpen(o: Options, items: seq<Value>): string {
    if o.Compact() then "[" else if SimpleArray(items) then "[ " else "[\n"
  }

  function ArrayClose(o: Options, indent: nat, items: seq<Value>): string {
    if !o.Compact() && !SimpleArray(items) then Indent(o, indent) + "]" else "]"
  }

  function LongestKey(entries: seq<Entry>): nat {
    if entries == [] then 0
    else
      var rest := LongestKey(entries[1..]);
      if |entries[0].key| > rest then |entries[0].key| else rest
  }

  function Spaces(n: int): string {
    if n <= 0 then [] else " " + Spaces(n - 1)
  }

  /** What stands between a key and its value; the values are aligned behind the longest key. */
  function ColonText(o: Options, e: Entry, longest: nat): string {
    if o.Compact() then ":"
    else if o.omitColonBeforeObject && e.value.Object? && e.value.entries != [] then " "
    else ": " + if o.objectAlignValues then Spaces(longest - |e.key|) else ""
  }

  /** What follows an entry. The option asked is the one for arrays. */
  function EntryEnd(o: Options, last: bool): string {
    if o.Compact() then if last then "" else ","
    else if o.arrayOmitComma || last then "\n"
    else ",\n"
  }

  /** write_value. */
  function ValueText(o: Options, indent: nat, v: Value): string
    decreases v, 0
  {
    match v
    case Null => "null"
    case Bool(b) => if b then "true" else "false"
    case Int(i) => IntText(i)
    case Float(literal) => literal
    case Str(s) => StringText(o, s)
    case Array(items) =>
      if items == [] then if o.Compact() then "[]" else "[ ]"
      else ArrayOpen(o, items) + ItemsText(o, indent + 1, items, ArraySpacing(o, indent, items)) + ArrayClose(o, indent, items)
    case Object(entries) =>
      if entries == [] then if o.Compact() then "{}" else "{ }"
      else
        (if o.Compact() then "{" else "{\n") + EntriesText(o, indent + 1, entries, LongestKey(entries)) + Indent(o, indent) + "}"
  }

  function ItemsText(o: Options, indent: nat, items: seq<Value>, spacing: Spacing): string
    decreases items, 1
  {
    if items == [] then []
    else
      spacing.lead + ValueText(o, indent, items[0]) + (if |items| == 1 then spacing.last else spacing.between) +
      ItemsText(o, indent, items[1..], spacing)
  }

  /** write_object_contents. */
  function EntriesText(o: Options, indent: nat, entries: seq<Entry>, longest: nat): string
    decreases entries, 1
  {
    if entries == [] then []
    else
      var e := entries[0];
      Indent(o, indent) + KeyText(o, e.key) + ColonText(o, e, longest) + ValueText(o, indent, e.value) +
      EntryEnd(o, |entries| == 1) + EntriesText(o, indent, entries[1..], longest)
  }

  /** dump_string. */
  function Dump(o: Options, v: Value): string {
    ValueText(o, 0, v) + if o.endWithNewline && !o.Compact() then "\n" else ""
  }
}
