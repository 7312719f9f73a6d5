/** Values, format options and character classes of configuru.hpp. Text is a sequence of `char` in which
    every element stands for one byte; reading past its end yields the terminating NUL. */
module ConfigText {

  /** A configuration tree. The entries of an object are listed in the order of their `_nr`. Floats are
      carried as their literal. */
  datatype Value =
    | Null
    | Bool(b: bool)
    | Int(i: int)
    | Float(literal: string)
    | Str(s: string)
    | Array(items: seq<Value>)
    | Object(entries: seq<Entry>)

  datatype Entry = Entry(key: string, value: Value)

  predicate UniqueKeys(entries: seq<Entry>) {
    forall i, j :: 0 <= i < j < |entries| ==> entries[i].key != entries[j].key
  }

  /** FormatOptions, without those that are off in JSON and concern comments, macros, number prefixes,
      verbatim strings of C#, bare top-level objects or enforced indentation. */
  datatype Options = Options(
    indentation: string,
    endWithNewline: bool,
    emptyFile: bool,
    implicitTopArray: bool,
    unaryPlus: bool,
    arrayOmitComma: bool,
    arrayTrailingComma: bool,
    identifiersKeys: bool,
    objectSeparatorEqual: bool,
    allowSpaceBeforeColon: bool,
    omitColonBeforeObject: bool,
    objectOmitComma: bool,
    objectTrailingComma: bool,
    objectDuplicateKeys: bool,
    objectAlignValues: bool,
    strPythonMultiline: bool,
    str32bitUnicode: bool,
    strAllowTab: bool)
  {
    predicate Compact() {
      indentation == ""
    }

    /** Tabs, spaces or nothing. */
    predicate Valid() {
      forall i :: 0 <= i < |indentation| ==> indentation[i] == ' ' || indentation[i] == '\t'
    }
  }

  /** make_json_options. */
  const JSON := Options("\t", true, false, false, false, false, false, false, false, true, false, false, false, false, true, false, false, false)

  const NUL := '\0'
  const BACKSPACE := 8 as char
  const FORM_FEED := 12 as char

  function Peek(s: string, i: nat): char {
    if i < |s| then s[i] else NUL
  }

  predicate IsDigit(c: char) {
    '0' <= c <= '9'
  }

  predicate IdentStarter(c: char) {
    c == '_' || 'a' <= c <= 'z' || 'A' <= c <= 'Z'
  }

  predicate IdentChar(c: char) {
    IdentStarter(c) || IsDigit(c)
  }

  predicate MaybeWhite(c: char) {
    c == '\n' || c == '\r' || c == '\t' || c == ' ' || c == '/'
  }

  predicate NulFree(s: string) {
    forall i :: 0 <= i < |s| ==> s[i] != NUL
  }

  /** strncmp(ptr, literal, n) == 0. */
  predicate LooksAt(s: string, literal: string) {
    literal <= s
  }

  /** is_reserved_identifier. */
  predicate Reserved(s: string) {
    if LooksAt(s, "true") || LooksAt(s, "null") then !IdentChar(Peek(s, 4))
    else LooksAt(s, "false") && !IdentChar(Peek(s, 5))
  }

  /** The result of a parsing step: a value and what is left of the text, or the place of the error. */
  datatype Parsed<+T> = Ok(value: T, rest: string) | Err(at: string)
  {
    predicate IsFailure() { Err? }
    function PropagateFailure<U>(): Parsed<U> requires Err? { Err(at) }
    function Extract(): (T, string) requires Ok? { (value, rest) }
  }
}
