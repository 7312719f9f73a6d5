/** Decimal literals: which of them become integers, and that printed integers are read back. */
module ConfigNumbers {
  import opened ConfigText
  import opened ConfigUtf8
  import opened ConfigGrammar
  import opened ConfigLayout

  predicate AllDigits(ds: string) {
    forall i :: 0 <= i < |ds| ==> IsDigit(ds[i])
  }

  // ---- Digits and what they denote ------------------------------------------------------------------------

  lemma {:induction false} DigitsOf(ds: string, suf: string)
    requires AllDigits(ds) && !IsDigit(Peek(suf, 0))
    ensures Digits(ds + suf) == ds
    decreases |ds|
  {
    if ds == [] {
      assert ds + suf == suf;
    } else {
      DigitsOf(ds[1..], suf);
      assert (ds + suf)[1..] == ds[1..] + suf;
    }
  }

  lemma {:induction false} DenotesBelow(ds: string)
    requires AllDigits(ds)
    ensures Denotes(ds) < Pow10(|ds|)
    decreases |ds|
  {
    if ds != [] {
      DenotesBelow(ds[1..]);
      PowStep(|ds|);
      hide Pow10;
      MulMonotone(Pow10(|ds| - 1), DigitOf(ds[0]), 9);
    }
  }

  lemma DenotesAtLeast(ds: string)
    requires AllDigits(ds) && ds != [] && ds[0] != '0'
    ensures Denotes(ds) >= Pow10(|ds| - 1)
  {
    var p := Pow10(|ds| - 1);
    assert DigitOf(ds[0]) * p >= 1 * p;
  }

  lemma LeadDecides(x: nat, y: nat, p: nat, r: nat, q: nat)
    requires x > y && r < p && q < p
    ensures x * p + r > y * p + q
  {
    MulMonotone(p, y + 1, x);
    assert p * (y + 1) == p * y + p;
  }

  /** For strings of one length the first difference decides as the numbers do. */
  lemma {:induction false} CompareMeans(a: string, b: string)
    requires |a| == |b| && AllDigits(a) && AllDigits(b)
    ensures CompareDigits(a, b) > 0 <==> Denotes(a) > Denotes(b)
    ensures CompareDigits(a, b) == 0 <==> Denotes(a) == Denotes(b)
    decreases |a|
  {
    if a != [] {
      hide Pow10;
      DenotesBelow(a[1..]);
      DenotesBelow(b[1..]);
      CompareMeans(a[1..], b[1..]);
      var p, x, y := Pow10(|a| - 1), DigitOf(a[0]), DigitOf(b[0]);
      if x > y { LeadDecides(x, y, p, Denotes(a[1..]), Denotes(b[1..])); }
      if x < y { LeadDecides(y, x, p, Denotes(b[1..]), Denotes(a[1..])); }
    }
  }

  lemma {:induction false} PowMonotone(m: nat, n: nat)
    requires m <= n
    ensures Pow10(m) <= Pow10(n)
    decreases n
  {
    if m < n { PowMonotone(m, n - 1); }
  }

  lemma Pow18()
    ensures Pow10(18) == 1_000_000_000_000_000_000 && Pow10(19) == 10_000_000_000_000_000_000
  {
    assert Pow10(6) == 1_000_000;
    assert Pow10(12) == 1_000_000_000_000;
  }

  lemma {:induction false} DenotesSnoc(ds: string, c: char)
    requires AllDigits(ds) && IsDigit(c)
    ensures AllDigits(ds + [c]) && Denotes(ds + [c]) == 10 * Denotes(ds) + DigitOf(c)
    decreases |ds|
  {
    if ds == [] {
      assert ds + [c] == [c];
      assert [c][1..] == [];
    } else {
      DenotesSnoc(ds[1..], c);
      assert (ds + [c])[1..] == ds[1..] + [c];
      PowStep(|ds|);
      hide Pow10;
      MulTen(DigitOf(ds[0]), Pow10(|ds| - 1));
    }
  }

  lemma MulTen(d: nat, p: nat)
    ensures d * (10 * p) == 10 * (d * p)
  {
  }

  lemma PowStep(n: nat)
    requires n > 0
    ensures Pow10(n) == 10 * Pow10(n - 1)
  {
  }

  lemma MaxIntDenotes()
    ensures AllDigits(MaxIntDigits(false)) && Denotes(MaxIntDigits(false)) == MAX_INT
    ensures AllDigits(MaxIntDigits(true)) && Denotes(MaxIntDigits(true)) == 0 - MIN_INT
  {
    ZeroDenotes();
    hide Denotes;
    var a := Chain("", 0, "922337");
    var b := Chain(a, 922337, "203685");
    var c := Chain(b, 922337203685, "477580");
    DenotesSnoc(c, '7');
    DenotesSnoc(c, '8');
    assert MaxIntDigits(false) == c + ['7'];
    assert MaxIntDigits(true) == c + ['8'];
  }

  /** Six more digits. */
  lemma Chain(ds: string, n: nat, x: string) returns (r: string)
    requires AllDigits(ds) && Denotes(ds) == n && |x| == 6 && AllDigits(x)
    ensures r == ds + x && AllDigits(r)
    ensures Denotes(r) == n * 1_000_000 + DigitOf(x[0]) * 100_000 + DigitOf(x[1]) * 10_000 + DigitOf(x[2]) * 1_000 + DigitOf(x[3]) * 100 + DigitOf(x[4]) * 10 + DigitOf(x[5])
  {
    hide Denotes;
    DenotesSnoc(ds, x[0]);
    DenotesSnoc(ds + [x[0]], x[1]);
    DenotesSnoc(ds + [x[0]] + [x[1]], x[2]);
    DenotesSnoc(ds + [x[0]] + [x[1]] + [x[2]], x[3]);
    DenotesSnoc(ds + [x[0]] + [x[1]] + [x[2]] + [x[3]], x[4]);
    DenotesSnoc(ds + [x[0]] + [x[1]] + [x[2]] + [x[3]] + [x[4]], x[5]);
    r := ds + [x[0]] + [x[1]] + [x[2]] + [x[3]] + [x[4]] + [x[5]];
    assert r == ds + x;
  }

  // ---- Literals -------------------------------------------------------------------------------------------

  /** What can follow a number that has no fraction and no exponent. */
  predicate NumberEnd(suf: string) {
    !IsDigit(Peek(suf, 0)) && Peek(suf, 0) !in {'.', 'e', 'E', 'x', 'b'}
  }

  function Sign(negative: bool): string {
    if negative then "-" else ""
  }

  function Signed(negative: bool, n: nat): int {
    if negative then 0 - n else n
  }

  predicate InInt64(n: int) {
    MIN_INT <= n <= MAX_INT
  }

  lemma StrtollOf(negative: bool, ds: string, suf: string)
    requires AllDigits(ds) && ds != [] && NumberEnd(suf)
    ensures var n := Signed(negative, Denotes(ds));
            Strtoll(Sign(negative) + ds + suf) == (if n < MIN_INT then MIN_INT else if n > MAX_INT then MAX_INT else n, |Sign(negative) + ds|)
  {
    DigitsOf(ds, suf);
    var s := Sign(negative) + ds + suf;
    if negative { assert s[1..] == ds + suf; } else { assert s == ds + suf; assert s[0] == ds[0]; assert s[0..] == s; }
  }

  lemma StrtodOf(negative: bool, ds: string, suf: string)
    requires AllDigits(ds) && ds != [] && NumberEnd(suf)
    ensures StrtodLength(Sign(negative) + ds + suf) == |Sign(negative) + ds|
  {
    DigitsOf(ds, suf);
    var s := Sign(negative) + ds + suf;
    if negative { assert s[1..] == ds + suf; } else { assert s == ds + suf; assert s[0] == ds[0]; assert s[0..] == s; }
    assert Peek(s, |Sign(negative) + ds|) == Peek(suf, 0);
  }

  /** The digits decide the way the numbers do. */
  lemma FitsByDigits(negative: bool, ds: string)
    requires AllDigits(ds) && ds != [] && (ds[0] != '0' || ds == "0")
    ensures InInt64(Signed(negative, Denotes(ds))) <==>
            |ds| < 19 || (|ds| == 19 && CompareDigits(ds, MaxIntDigits(negative)) <= 0)
  {
    hide Pow10, Denotes, CompareDigits, MaxIntDigits;
    Pow18();
    MaxIntDenotes();
    DenotesBelow(ds);
    if |ds| < 19 {
      PowMonotone(|ds|, 18);
    } else {
      DenotesAtLeast(ds);
      if |ds| > 19 { PowMonotone(19, |ds| - 1); } else { CompareMeans(ds, MaxIntDigits(negative)); }
    }
  }

  /** Which of the two readers a literal goes to. */
  lemma LiteralGoesTo(o: Options, negative: bool, ds: string, suf: string)
    requires AllDigits(ds) && ds != [] && NumberEnd(suf)
    requires ds != "0" ==> ds[0] != '0' || |ds| >= 2
    ensures var s := Sign(negative) + ds + suf;
            ParseFiniteNumber(o, s) ==
            if |ds| < 19 || (|ds| == 19 && CompareDigits(ds, MaxIntDigits(negative)) <= 0) then ParseInt(s) else ParseFloat(s)
  {
    hide ParseInt, ParseFloat, CompareDigits, MaxIntDigits, Digits;
    var s := Sign(negative) + ds + suf;
    LiteralFront(negative, ds, suf);
    DigitsOf(ds, suf);
  }

  /** What the reader sees of a literal before it looks at the digits. */
  lemma LiteralFront(negative: bool, ds: string, suf: string)
    requires AllDigits(ds) && ds != [] && NumberEnd(suf)
    requires ds != "0" ==> ds[0] != '0' || |ds| >= 2
    ensures var s := Sign(negative) + ds + suf;
            && Peek(s, 0) != '+' && (Peek(s, 0) == '-' <==> negative)
            && (if negative then s[1..] else s) == ds + suf
    ensures IsDigit(Peek(ds + suf, 0)) && !LooksAt(ds + suf, "0x") && !LooksAt(ds + suf, "0b")
    ensures Peek(ds + suf, |ds|) == Peek(suf, 0)
  {
    var s, t := Sign(negative) + ds + suf, ds + suf;
    assert negative ==> s[1..] == t;
    assert !negative ==> s == t;
    assert t[0] == ds[0];
    assert |t| >= 2 ==> t[1] == if |ds| >= 2 then ds[1] else Peek(suf, 0);
  }

  lemma IntOf(negative: bool, ds: string, suf: string)
    requires AllDigits(ds) && ds != [] && NumberEnd(suf) && InInt64(Signed(negative, Denotes(ds)))
    ensures var n := Signed(negative, Denotes(ds));
            ParseInt(Sign(negative) + ds + suf) == if !negative && ds[0] == '0' && n != 0 then Err(suf) else Ok(Int(n), suf)
  {
    hide Strtoll, Denotes;
    StrtollOf(negative, ds, suf);
    var s := Sign(negative) + ds + suf;
    assert s[|Sign(negative) + ds|..] == suf;
    assert s[0] == if negative then '-' else ds[0];
  }

  lemma FloatOf(negative: bool, ds: string, suf: string)
    requires AllDigits(ds) && ds != [] && NumberEnd(suf)
    ensures ParseFloat(Sign(negative) + ds + suf) == Ok(Float(Sign(negative) + ds), suf)
  {
    hide StrtodLength;
    StrtodOf(negative, ds, suf);
    var s, x := Sign(negative) + ds + suf, Sign(negative) + ds;
    assert s[|x|..] == suf && s[..|x|] == x;
  }

  /** A decimal literal without superfluous zeros, fraction or exponent is an integer exactly when its value
      fits 64 bits; otherwise it is a float. */
  lemma IntLiteral(o: Options, negative: bool, ds: string, suf: string)
    requires AllDigits(ds) && ds != [] && (ds[0] != '0' || ds == "0") && NumberEnd(suf)
    ensures var n := Signed(negative, Denotes(ds));
            ParseFiniteNumber(o, Sign(negative) + ds + suf) ==
            if InInt64(n) then Ok(Int(n), suf) else Ok(Float(Sign(negative) + ds), suf)
  {
    hide ParseFiniteNumber, ParseInt, ParseFloat, Denotes, CompareDigits, MaxIntDigits;
    LiteralGoesTo(o, negative, ds, suf);
    FitsByDigits(negative, ds);
    ZeroDenotes();
    if InInt64(Signed(negative, Denotes(ds))) { IntOf(negative, ds, suf); } else { FloatOf(negative, ds, suf); }
  }

  lemma ZeroDenotes()
    ensures Denotes("0") == 0 && Denotes("") == 0
  {
  }

  /** A sign the options allow. */
  predicate AllowedSign(o: Options, sign: string) {
    sign == "" || sign == "-" || (sign == "+" && o.unaryPlus)
  }

  predicate FractionOrExponent(tail: string) {
    Peek(tail, 0) in {'.', 'e', 'E'}
  }

  /** What the two readers see of digits behind a sign. */
  lemma SignedDigits(sign: string, ds: string, tail: string)
    requires (sign == "" || sign == "-" || sign == "+") && AllDigits(ds) && ds != [] && !IsDigit(Peek(tail, 0))
    ensures var s := sign + ds + tail;
            && s[0] == (if sign == "" then ds[0] else sign[0])
            && (IsSign(s[0]) <==> sign != "")
            && s[|sign|..] == ds + tail && Digits(s[|sign|..]) == ds && Peek(ds + tail, |ds|) == Peek(tail, 0)
  {
    var s := sign + ds + tail;
    DigitsOf(ds, tail);
    assert s[|sign|..] == ds + tail;
  }

  lemma ZeroLedGoesTo(o: Options, sign: string, ds: string, tail: string)
    requires AllowedSign(o, sign) && AllDigits(ds) && |ds| >= 2 && ds[0] == '0' && !IsDigit(Peek(tail, 0))
    ensures var s := sign + ds + tail;
            ParseFiniteNumber(o, s) == if FractionOrExponent(tail) || |ds| > 19 then ParseFloat(s) else ParseInt(s)
  {
    hide ParseInt, ParseFloat, Digits;
    var s, t := sign + ds + tail, ds + tail;
    SignedDigits(sign, ds, tail);
    assert sign == "" ==> s == t;
    assert sign != "" ==> s[1..] == t;
    assert t[0] == ds[0] && t[1] == ds[1];
    assert |ds| == 19 ==> CompareDigits(ds, MaxIntDigits(sign == "-")) < 0;
  }

  /** A float takes at least the digits. */
  lemma FloatTaken(sign: string, ds: string, tail: string)
    requires (sign == "" || sign == "-" || sign == "+") && AllDigits(ds) && ds != [] && !IsDigit(Peek(tail, 0))
    ensures ParseFloat(sign + ds + tail).Ok?
  {
    hide Digits;
    SignedDigits(sign, ds, tail);
  }

  lemma IntTaken(sign: string, ds: string, tail: string)
    requires (sign == "" || sign == "-" || sign == "+") && AllDigits(ds) && |ds| >= 2 && ds[0] == '0' && !IsDigit(Peek(tail, 0))
    ensures ParseInt(sign + ds + tail).Err? <==> sign == "" && Denotes(ds) != 0
  {
    hide Digits, Denotes;
    SignedDigits(sign, ds, tail);
  }

  /** Superfluous zeros are refused exactly if there is no sign, no fraction and no exponent, there are at most
      19 digits, and the number is not zero. */
  lemma LeadingZeros(o: Options, sign: string, ds: string, tail: string)
    requires AllowedSign(o, sign) && AllDigits(ds) && |ds| >= 2 && ds[0] == '0' && !IsDigit(Peek(tail, 0))
    ensures ParseFiniteNumber(o, sign + ds + tail).Err? <==>
            sign == "" && !FractionOrExponent(tail) && |ds| <= 19 && Denotes(ds) != 0
  {
    hide ParseFiniteNumber, ParseInt, ParseFloat, Denotes;
    ZeroLedGoesTo(o, sign, ds, tail);
    FloatTaken(sign, ds, tail);
    IntTaken(sign, ds, tail);
  }

  // ---- Printed integers -----------------------------------------------------------------------------------

  lemma {:induction false} DecimalDenotes(n: nat)
    ensures Denotes(Decimal(n)) == n && (Decimal(n)[0] != '0' || Decimal(n) == "0")
    decreases n
  {
    if n < 10 {
      assert Decimal(n)[1..] == [];
    } else {
      DecimalDenotes(n / 10);
      DenotesSnoc(Decimal(n / 10), ('0' as int + n % 10) as char);
      ZeroDenotes();
    }
  }

  /** Every 64-bit integer the writer prints is read back as itself. */
  lemma IntRoundTrip(o: Options, i: int, suf: string)
    requires InInt64(i) && NumberEnd(suf)
    ensures ParseFiniteNumber(o, IntText(i) + suf) == Ok(Int(i), suf)
  {
    var negative, n: nat := i < 0, if i < 0 then -i else i;
    DecimalDenotes(n);
    IntLiteral(o, negative, Decimal(n), suf);
    assert IntText(i) == Sign(negative) + Decimal(n);
  }
}
