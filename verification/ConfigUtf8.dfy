/** Escapes for code points: hexadecimal digits, surrogate pairs and UTF-8. */
module ConfigUtf8 {
  import opened ConfigText

  function HexDigit(c: char): (d: int)
    ensures -1 <= d < 16
  {
    if '0' <= c <= '9' then c as int - '0' as int
    else if 'a' <= c <= 'f' then c as int - 'a' as int + 10
    else if 'A' <= c <= 'F' then c as int - 'A' as int + 10
    else -1
  }

  /** The number written by `count` hexadecimal digits at the front, following `acc`; -1 if one is missing. */
  function HexValue(s: string, count: nat, acc: nat): int
    decreases count
  {
    if count == 0 then acc
    else if HexDigit(Peek(s, 0)) < 0 || s == [] then -1
    else HexValue(s[1..], count - 1, acc * 16 + HexDigit(s[0]))
  }

  /** parse_hex: an error is reported in front of the digits. */
  function ParseHex(s: string, count: nat): (r: Parsed<nat>)
    ensures r.Ok? ==> |r.rest| + count == |s|
  {
    HexLength(s, count, 0);
    if HexValue(s, count, 0) < 0 then Err(s) else Ok(HexValue(s, count, 0), s[count..])
  }

  lemma {:induction false} HexLength(s: string, count: nat, acc: nat)
    ensures HexValue(s, count, acc) >= 0 ==> |s| >= count
    decreases count
  {
    if count > 0 && s != [] && HexDigit(s[0]) >= 0 { HexLength(s[1..], count - 1, acc * 16 + HexDigit(s[0])); }
  }

  /** The number that hexadecimal digits write, by positions. */
  function Positional(ds: string): int {
    if ds == [] then 0 else Positional(ds[..|ds| - 1]) * 16 + HexDigit(ds[|ds| - 1])
  }

  /** Reading from the front is reading by positions. */
  lemma {:induction false} HexSnoc(s: string, count: nat, acc: nat)
    requires count < |s| && HexValue(s, count, acc) >= 0
    ensures HexValue(s, count + 1, acc) == if HexDigit(s[count]) < 0 then -1 else HexValue(s, count, acc) * 16 + HexDigit(s[count])
    decreases count
  {
    if count == 0 {
      assert HexValue(s, 1, acc) == if HexDigit(s[0]) < 0 then -1 else HexValue(s[1..], 0, acc * 16 + HexDigit(s[0]));
    } else {
      HexSnoc(s[1..], count - 1, acc * 16 + HexDigit(s[0]));
    }
  }

  /** A missing digit is not made up for by those behind it. */
  lemma {:induction false} HexStays(s: string, count: nat, acc: nat)
    requires HexValue(s, count, acc) < 0
    ensures HexValue(s, count + 1, acc) < 0
    decreases count
  {
    if count > 0 && s != [] && HexDigit(s[0]) >= 0 { HexStays(s[1..], count - 1, acc * 16 + HexDigit(s[0])); }
  }

  /** parse_hex succeeds exactly if enough digits stand at the front, and reads the number they write. */
  lemma {:induction false} HexMeans(s: string, count: nat)
    ensures ParseHex(s, count).Ok? <==> count <= |s| && forall i :: 0 <= i < count ==> HexDigit(s[i]) >= 0
    ensures ParseHex(s, count).Ok? ==> ParseHex(s, count).value == Positional(s[..count])
    decreases count
  {
    if count > 0 {
      HexMeans(s, count - 1);
      if ParseHex(s, count - 1).Err? {
        HexStays(s, count - 1, 0);
      } else {
        HexLength(s, count, 0);
        if count <= |s| {
          HexSnoc(s, count - 1, 0);
          assert s[..count][..count - 1] == s[..count - 1];
        }
      }
    }
  }

  // ---- Surrogate pairs ----------------------------------------------------------------------------------

  predicate HighSurrogate(u: nat) { 0xD800 <= u <= 0xDBFF }
  predicate LowSurrogate(u: nat) { 0xDC00 <= u <= 0xDFFF }

  /** The source's formula: (high << 10) + low - 0x35FDC00. */
  function Combine(high: nat, low: nat): int {
    high * 0x400 + low - 0x35FDC00
  }

  /** Section 2.1 of RFC 2781: how a code point beyond 0xFFFF is split into two 16-bit units. */
  function SplitHigh(u: nat): nat
    requires 0x1_0000 <= u <= 0x10_FFFF
  {
    0xD800 + (u - 0x1_0000) / 0x400
  }

  function SplitLow(u: nat): nat
    requires 0x1_0000 <= u <= 0x10_FFFF
  {
    0xDC00 + (u - 0x1_0000) % 0x400
  }

  /** The formula undoes the splitting and hits every pair: section 2.2 of RFC 2781. */
  lemma SurrogatesCombine(u: nat, high: nat, low: nat)
    ensures 0x1_0000 <= u <= 0x10_FFFF ==>
              HighSurrogate(SplitHigh(u)) && LowSurrogate(SplitLow(u)) && Combine(SplitHigh(u), SplitLow(u)) == u
    ensures HighSurrogate(high) && LowSurrogate(low) ==>
              0x1_0000 <= Combine(high, low) <= 0x10_FFFF && SplitHigh(Combine(high, low)) == high && SplitLow(Combine(high, low)) == low
  {
  }

  // ---- UTF-8 --------------------------------------------------------------------------------------------

  /** A byte with its upper bits cut off, as the cast to char does. */
  function Byte(n: nat): char {
    (n % 256) as char
  }

  /** 0x80 | n, for n below 256. */
  function Continue(n: nat): nat {
    if n % 256 / 128 == 1 then n else n + 128
  }

  /** encode_utf8; nothing for a number beyond 31 bits. The bits set by an OR are free in every case but
      one: the second byte of the five-byte form is not masked. */
  function EncodeUtf8(c: nat): string {
    if c <= 0x7F then [Byte(c)]
    else if c <= 0x7FF then [Byte(0xC0 + c / 0x40), Byte(0x80 + c % 0x40)]
    else if c <= 0xFFFF then [Byte(0xE0 + c / 0x1000), Byte(0x80 + c / 0x40 % 0x40), Byte(0x80 + c % 0x40)]
    else if c <= 0x1F_FFFF then
      [Byte(0xF0 + c / 0x4_0000), Byte(0x80 + c / 0x1000 % 0x40), Byte(0x80 + c / 0x40 % 0x40), Byte(0x80 + c % 0x40)]
    else if c <= 0x3FF_FFFF then
      [Byte(0xF8 + c / 0x100_0000), Byte(Continue(c / 0x4_0000)), Byte(0x80 + c / 0x1000 % 0x40), Byte(0x80 + c / 0x40 % 0x40), Byte(0x80 + c % 0x40)]
    else if c <= 0x7FFF_FFFF then
      [Byte(0xFC + c / 0x4000_0000), Byte(0x80 + c / 0x100_0000 % 0x40), Byte(0x80 + c / 0x4_0000 % 0x40), Byte(0x80 + c / 0x1000 % 0x40),
       Byte(0x80 + c / 0x40 % 0x40), Byte(0x80 + c % 0x40)]
    else []
  }

  predicate IsTail(c: char) {
    0x80 <= c as int < 0xC0
  }

  /** How many bytes follow the lead byte; none of the forms fits if negative. */
  function TailLength(lead: char): int {
    var b := lead as int;
    if b < 0x80 then 0 else if b < 0xC0 then -1 else if b < 0xE0 then 1 else if b < 0xF0 then 2
    else if b < 0xF8 then 3 else if b < 0xFC then 4 else if b < 0xFE then 5 else -1
  }

  /** The bits of the lead byte that belong to the number. */
  function LeadBits(lead: char): int {
    var b := lead as int;
    if b < 0x80 then b else if b < 0xE0 then b - 0xC0 else if b < 0xF0 then b - 0xE0
    else if b < 0xF8 then b - 0xF0 else if b < 0xFC then b - 0xF8 else b - 0xFC
  }

  /** The six bits of every byte that follows. */
  function TailBits(s: string, acc: int): int {
    if s == [] then acc
    else if acc < 0 || !IsTail(s[0]) then -1
    else TailBits(s[1..], acc * 0x40 + (s[0] as int - 0x80))
  }

  /** A decoder in the style of section 3 of RFC 3629, with the longer forms of the older definition: the
      number a whole string encodes, or -1. */
  function DecodeUtf8(s: string): int {
    if s == [] || TailLength(s[0]) != |s| - 1 then -1 else TailBits(s[1..], LeadBits(s[0]))
  }

  lemma TailStep(a: char, s: string, acc: int)
    requires acc >= 0 && IsTail(a)
    ensures TailBits([a] + s, acc) == TailBits(s, acc * 0x40 + (a as int - 0x80))
  {
    assert ([a] + s)[1..] == s;
  }

  /** The tail bytes of the low `6 * n` bits of a number. */
  function Tails(c: nat, n: nat): (s: string)
    ensures |s| == n
  {
    if n == 0 then [] else Tails(c / 0x40, n - 1) + [Byte(0x80 + c % 0x40)]
  }

  function Pow64(n: nat): (p: nat)
    ensures p > 0
  {
    if n == 0 then 1 else 0x40 * Pow64(n - 1)
  }

  lemma {:induction false} TailBitsSnoc(s: string, a: char, acc: int)
    requires acc >= 0 && IsTail(a)
    ensures TailBits(s + [a], acc) == if TailBits(s, acc) < 0 then -1 else TailBits(s, acc) * 0x40 + (a as int - 0x80)
    decreases |s|
  {
    if s == [] {
      TailStep(a, [], acc);
      assert s + [a] == [a] + [];
    } else {
      assert (s + [a])[1..] == s[1..] + [a];
      if IsTail(s[0]) { TailBitsSnoc(s[1..], a, acc * 0x40 + (s[0] as int - 0x80)); }
    }
  }

  /** Reading the tails of a number onto its upper bits gives the number. */
  lemma {:induction false} TailsRead(c: nat, n: nat, top: nat)
    requires top == c / Pow64(n)
    ensures TailBits(Tails(c, n), top) == c
    decreases n
  {
    if n > 0 {
      DivDiv(c, Pow64(n - 1));
      TailsRead(c / 0x40, n - 1, top);
      TailBitsSnoc(Tails(c / 0x40, n - 1), Byte(0x80 + c % 0x40), top);
    }
  }

  lemma DivDiv(c: nat, p: nat)
    requires p > 0
    ensures c / 0x40 / p == c / (0x40 * p)
  {
    var q, r := c / 0x40 / p, c / 0x40 % p;
    assert c / 0x40 == q * p + r;
    var low := c % 0x40;
    assert c == (0x40 * p) * q + (0x40 * r + low);
    assert 0 <= 0x40 * r + low < 0x40 * p;
    DivUnique(c, 0x40 * p, q, 0x40 * r + low);
  }

  lemma DivUnique(c: nat, d: nat, q: nat, r: nat)
    requires d > 0 && c == d * q + r && r < d
    ensures c / d == q
  {
    var e: int := c / d - q;
    assert d * e == r - c % d;
    SmallMultiple(d, e);
  }

  lemma SmallMultiple(d: int, e: int)
    requires 0 - d < d * e < d
    ensures e == 0
  {
    if e > 0 { MulMonotone(d, 1, e); }
    if e < 0 { MulMonotone(d, e, -1); }
  }

  lemma MulMonotone(d: int, a: int, b: int)
    requires 0 <= d && a <= b
    ensures d * a <= d * b
  {
  }

  /** Every number up to 31 bits is encoded so that the decoder finds it again, except that the five-byte
      form loses bit 24: its second byte lets that bit run into the marker bits. */
  lemma Utf8RoundTrip(c: nat)
    requires c <= 0x7FFF_FFFF
    ensures DecodeUtf8(EncodeUtf8(c)) == c <==> !(0x1F_FFFF < c <= 0x3FF_FFFF && c / 0x100_0000 % 2 == 1)
  {
    var s := EncodeUtf8(c);
    Pow64s();
    if 0x1F_FFFF < c <= 0x3FF_FFFF {
      FiveBytes(c);
    } else {
      TailsAre(c, s);
      TailsRead(c, |s| - 1, LeadBits(s[0]));
    }
  }

  lemma Pow64s()
    ensures Pow64(0) == 1 && Pow64(1) == 0x40 && Pow64(2) == 0x1000 && Pow64(3) == 0x4_0000 && Pow64(4) == 0x100_0000 && Pow64(5) == 0x4000_0000
  {
    assert Pow64(1) == 0x40 * Pow64(0);
    assert Pow64(2) == 0x40 * Pow64(1);
    assert Pow64(3) == 0x40 * Pow64(2);
    assert Pow64(4) == 0x40 * Pow64(3);
    assert Pow64(5) == 0x40 * Pow64(4);
  }

  lemma TailsAre(c: nat, s: string)
    requires c <= 0x7FFF_FFFF && !(0x1F_FFFF < c <= 0x3FF_FFFF) && s == EncodeUtf8(c)
    ensures TailLength(s[0]) == |s| - 1 && s[1..] == Tails(c, |s| - 1) && LeadBits(s[0]) == c / Pow64(|s| - 1)
  {
    hide Tails, Pow64, Byte, EncodeUtf8;
    Pow64s();
    TailsUnfold(c);
    EncodeForms(c);
    LeadForms(c);
  }

  lemma EncodeForms(c: nat)
    requires c <= 0x7FFF_FFFF
    ensures var s := EncodeUtf8(c);
            && (c <= 0x7F ==> s == [Byte(c)])
            && (0x7F < c <= 0x7FF ==> s == [Byte(0xC0 + c / 0x40)] + Tails(c, 1))
            && (0x7FF < c <= 0xFFFF ==> s == [Byte(0xE0 + c / 0x1000)] + Tails(c, 2))
            && (0xFFFF < c <= 0x1F_FFFF ==> s == [Byte(0xF0 + c / 0x4_0000)] + Tails(c, 3))
            && (0x3FF_FFFF < c ==> s == [Byte(0xFC + c / 0x4000_0000)] + Tails(c, 5))
  {
    hide Tails, Byte;
    TailsUnfold(c);
  }

  lemma LeadForms(c: nat)
    ensures c <= 0x7F ==> TailLength(Byte(c)) == 0 && LeadBits(Byte(c)) == c
    ensures 0x7F < c <= 0x7FF ==> TailLength(Byte(0xC0 + c / 0x40)) == 1 && LeadBits(Byte(0xC0 + c / 0x40)) == c / 0x40
    ensures 0x7FF < c <= 0xFFFF ==> TailLength(Byte(0xE0 + c / 0x1000)) == 2 && LeadBits(Byte(0xE0 + c / 0x1000)) == c / 0x1000
    ensures 0xFFFF < c <= 0x1F_FFFF ==> TailLength(Byte(0xF0 + c / 0x4_0000)) == 3 && LeadBits(Byte(0xF0 + c / 0x4_0000)) == c / 0x4_0000
    ensures 0x1F_FFFF < c <= 0x3FF_FFFF ==> TailLength(Byte(0xF8 + c / 0x100_0000)) == 4 && LeadBits(Byte(0xF8 + c / 0x100_0000)) == c / 0x100_0000
    ensures 0x3FF_FFFF < c <= 0x7FFF_FFFF ==> TailLength(Byte(0xFC + c / 0x4000_0000)) == 5 && LeadBits(Byte(0xFC + c / 0x4000_0000)) == c / 0x4000_0000
  {
  }

  lemma TailsUnfold(c: nat)
    ensures Tails(c, 0) == []
    ensures Tails(c, 1) == [Byte(0x80 + c % 0x40)]
    ensures Tails(c, 2) == [Byte(0x80 + c / 0x40 % 0x40), Byte(0x80 + c % 0x40)]
    ensures Tails(c, 3) == [Byte(0x80 + c / 0x1000 % 0x40), Byte(0x80 + c / 0x40 % 0x40), Byte(0x80 + c % 0x40)]
    ensures Tails(c, 4) == [Byte(0x80 + c / 0x4_0000 % 0x40), Byte(0x80 + c / 0x1000 % 0x40), Byte(0x80 + c / 0x40 % 0x40), Byte(0x80 + c % 0x40)]
    ensures Tails(c, 5) == [Byte(0x80 + c / 0x100_0000 % 0x40), Byte(0x80 + c / 0x4_0000 % 0x40), Byte(0x80 + c / 0x1000 % 0x40), Byte(0x80 + c / 0x40 % 0x40), Byte(0x80 + c % 0x40)]
  {
    var c1, c2, c3, c4 := c / 0x40, c / 0x1000, c / 0x4_0000, c / 0x100_0000;
    assert c1 / 0x40 == c2 && c2 / 0x40 == c3 && c3 / 0x40 == c4;
    assert Tails(c4, 1) == [Byte(0x80 + c4 % 0x40)];
    assert Tails(c3, 1) == [Byte(0x80 + c3 % 0x40)];
    assert Tails(c2, 1) == [Byte(0x80 + c2 % 0x40)];
    assert Tails(c1, 1) == [Byte(0x80 + c1 % 0x40)];
    assert Tails(c3, 2) == Tails(c4, 1) + [Byte(0x80 + c3 % 0x40)];
    assert Tails(c2, 2) == Tails(c3, 1) + [Byte(0x80 + c2 % 0x40)];
    assert Tails(c1, 2) == Tails(c2, 1) + [Byte(0x80 + c1 % 0x40)];
    assert Tails(c2, 3) == Tails(c3, 2) + [Byte(0x80 + c2 % 0x40)];
    assert Tails(c1, 3) == Tails(c2, 2) + [Byte(0x80 + c1 % 0x40)];
    assert Tails(c1, 4) == Tails(c2, 3) + [Byte(0x80 + c1 % 0x40)];
  }

  lemma FiveBytes(c: nat)
    requires 0x1F_FFFF < c <= 0x3FF_FFFF
    ensures DecodeUtf8(EncodeUtf8(c)) == c <==> c / 0x100_0000 % 2 == 0
  {
    var s, second := EncodeUtf8(c), c / 0x4_0000;
    FiveForm(c);
    LeadForms(c);
    Pow64s();
    if c / 0x100_0000 % 2 == 0 {
      SecondByte(second);
      hide Tails, Pow64, Byte, EncodeUtf8, Continue;
      assert s == [Byte(0xF8 + c / 0x100_0000)] + Tails(c, 4);
      TailsRead(c, 4, LeadBits(s[0]));
    } else {
      SecondByte(second);
      hide Byte, EncodeUtf8, Continue;
      assert s[1..][0] == s[1];
    }
  }

  lemma FiveForm(c: nat)
    requires 0x1F_FFFF < c <= 0x3FF_FFFF
    ensures var s, second := EncodeUtf8(c), Byte(Continue(c / 0x4_0000));
            && |s| == 5 && s[0] == Byte(0xF8 + c / 0x100_0000) && s[1] == second
            && (second == Byte(0x80 + c / 0x4_0000 % 0x40) ==> s == [s[0]] + Tails(c, 4))
  {
    hide Tails, Byte, Continue;
    TailsUnfold(c);
  }

  lemma SecondByte(n: nat)
    requires n < 0x100
    ensures n / 0x40 % 2 == 0 ==> Byte(Continue(n)) == Byte(0x80 + n % 0x40)
    ensures n / 0x40 % 2 == 1 ==> !IsTail(Byte(Continue(n)))
  {
  }
}
