/** Which texts are numbers, and which number each of them is: the meaning of what AmountText reads,
    from the text down to wei. */
module Numerals {
  import opened Text
  import opened DecimalAmount
  import opened Rounding
  import opened AmountText

  // ---------- numerals and the numbers they denote ----------

  datatype Exponent = Exponent(mark: char, sign: string, digits: string)

  // A numeral in its parts; `fraction` is what follows the point, when there is one.
  datatype Numeral = Numeral(sign: string, whole: string, fraction: Option<string>, exponent: Option<Exponent>)

  predicate IsSign(s: string) {
    s == "" || s == "+" || s == "-"
  }

  predicate IsExponent(x: Exponent) {
    (x.mark == 'e' || x.mark == 'E') && IsSign(x.sign) && x.digits != "" && AllDigits(x.digits)
  }

  function FractionOf(n: Numeral): string {
    if n.fraction.Some? then n.fraction.value else ""
  }

  predicate IsNumeral(n: Numeral) {
    && IsSign(n.sign) && AllDigits(n.whole) && AllDigits(FractionOf(n))
    && (n.whole != "" || FractionOf(n) != "") && (n.exponent.Some? ==> IsExponent(n.exponent.value))
  }

  function MantissaText(n: Numeral): string {
    n.whole + if n.fraction.Some? then "." + n.fraction.value else ""
  }

  function ExponentText(x: Option<Exponent>): string {
    if x.Some? then [x.value.mark] + (x.value.sign + x.value.digits) else ""
  }

  function Written(n: Numeral): string {
    n.sign + (MantissaText(n) + ExponentText(n.exponent))
  }

  // Each digit of a whole number times the power of ten of its place.
  function WholeValue(a: string): nat
    requires AllDigits(a)
  {
    if a == "" then 0 else Times10(DigitValue(a[0]), |a| - 1) + WholeValue(a[1..])
  }

  // 0.f
  function FractionValue(f: string): real
    requires AllDigits(f)
  {
    if f == "" then 0.0 else (DigitValue(f[0]) as real + FractionValue(f[1..])) / 10.0
  }

  function ExponentOf(n: Numeral): int
    requires IsNumeral(n)
  {
    if n.exponent == None then 0
    else if n.exponent.value.sign == "-" then -(WholeValue(n.exponent.value.digits) as int)
    else WholeValue(n.exponent.value.digits)
  }

  // x times ten to the e
  function Shifted(x: real, e: int): real {
    if e >= 0 then Up(x, e) else Down(x, -e)
  }

  // The number a numeral denotes: sign, digits by place, exponent.
  function Denoted(n: Numeral): real
    requires IsNumeral(n)
  {
    var x := Shifted(WholeValue(n.whole) as real + FractionValue(FractionOf(n)), ExponentOf(n));
    if n.sign == "-" then -x else x
  }

  // ---------- digits by place ----------

  lemma {:induction false} DigitsAppend(a: string, b: string)
    requires AllDigits(a) && AllDigits(b)
    ensures AllDigits(a + b) && DigitsValue(a + b) == Times10(DigitsValue(a), |b|) + DigitsValue(b)
  {
    if b == "" {
      assert a + b == a;
    } else {
      var n := |b| - 1;
      assert (a + b)[..|a| + n] == a + b[..n];
      DigitsAppend(a, b[..n]);
      LastFactor(DigitsValue(a), n);
    }
  }

  // The first digit, apart.
  lemma FirstDigit(a: string)
    requires a != "" && AllDigits(a)
    ensures DigitsValue(a) == Times10(DigitValue(a[0]), |a| - 1) + DigitsValue(a[1..])
  {
    assert a == a[..1] + a[1..];
    DigitsAppend(a[..1], a[1..]);
    assert a[..1][..0] == "";
    assert DigitsValue(a[..1]) == DigitValue(a[0]);
  }

  lemma {:induction false} WholeIsDigits(a: string)
    requires AllDigits(a)
    ensures WholeValue(a) == DigitsValue(a)
  {
    if a != "" {
      FirstDigit(a);
      WholeIsDigits(a[1..]);
    }
  }

  lemma {:induction false} UpIsTimes10(c: nat, n: nat)
    ensures Up(c as real, n) == Times10(c, n) as real
    decreases n
  {
    if n > 0 {
      assert c as real * 10.0 == (10 * c) as real;
      UpIsTimes10(10 * c, n - 1);
    }
  }

  lemma {:induction false} FractionIsDigits(f: string)
    requires AllDigits(f)
    ensures Up(FractionValue(f), |f|) == DigitsValue(f) as real
  {
    if f != "" {
      var n := |f| - 1;
      FirstDigit(f);
      FractionIsDigits(f[1..]);
      UpLinear(DigitValue(f[0]) as real, FractionValue(f[1..]), n);
      UpIsTimes10(DigitValue(f[0]), n);
    }
  }

  lemma {:induction false} ShiftedBy(x: real, n: nat, e: int)
    ensures Shifted(Up(x, n), e - n) == Shifted(x, e)
    decreases n
  {
    if n > 0 {
      UpLast(x, n - 1);
      ShiftedOnce(Up(x, n - 1), e - n + 1);
      ShiftedBy(x, n - 1, e);
    }
  }

  lemma ShiftedOnce(x: real, e: int)
    ensures Shifted(x * 10.0, e - 1) == Shifted(x, e)
  {
    if e <= 0 {
      assert Down(x * 10.0, -e + 1) == Down(x * 10.0 / 10.0, -e);
    }
  }

  // ---------- what the reader makes of a numeral ----------

  function DecimalOf(n: Numeral): Decimal
    requires IsNumeral(n)
  {
    Decimal(n.sign == "-", DigitsValue(n.whole + FractionOf(n)), ExponentOf(n) - |FractionOf(n)|)
  }

  // Its value is the number denoted.
  lemma DecimalDenotes(n: Numeral)
    requires IsNumeral(n)
    ensures ValueOf(DecimalOf(n)) == Denoted(n)
  {
    hide DigitsValue, WholeValue, FractionValue, ExponentOf;
    var f := FractionOf(n);
    DigitsAppend(n.whole, f);
    WholeIsDigits(n.whole);
    FractionIsDigits(f);
    UpIsTimes10(DigitsValue(n.whole), |f|);
    UpLinear(WholeValue(n.whole) as real, FractionValue(f), |f|);
    var x := WholeValue(n.whole) as real + FractionValue(f);
    assert Up(x, |f|) == DigitsValue(n.whole + f) as real;
    ShiftedBy(x, |f|, ExponentOf(n));
  }

  lemma MantissaParses(n: Numeral, exponent: int)
    requires IsNumeral(n)
    ensures ParseMantissa(MantissaText(n), exponent)
            == Some(Decimal(false, DigitsValue(n.whole + FractionOf(n)), exponent - |FractionOf(n)|))
  {
    hide DigitsValue;
    var s := MantissaText(n);
    if n.fraction.Some? {
      assert s[|n.whole|] == '.';
      FindAt(s, '.', |n.whole|);
      assert s[..|n.whole|] == n.whole && s[|n.whole| + 1..] == n.fraction.value;
    } else {
      assert s == n.whole && n.whole + "" == n.whole;
      assert '.' !in s;
    }
  }

  lemma ExponentParses(x: Exponent)
    requires IsExponent(x)
    ensures ParseExponent(x.sign + x.digits)
            == Some(if x.sign == "-" then -(DigitsValue(x.digits) as int) else DigitsValue(x.digits))
  {
    hide DigitsValue;
    var s := x.sign + x.digits;
    if x.sign == "" {
      assert s == x.digits && !HasSign(s);
    } else {
      assert s[1..] == x.digits && s[0] == x.sign[0];
    }
  }

  lemma UnsignedParses(n: Numeral)
    requires IsNumeral(n)
    ensures ParseUnsigned(MantissaText(n) + ExponentText(n.exponent)) == Some(DecimalOf(n).(negative := false))
  {
    hide ParseMantissa, ParseExponent, DigitsValue, WholeValue, MantissaText, FractionOf, AllDigits;
    NoMark(n);
    MantissaParses(n, ExponentOf(n));
    if n.exponent.Some? {
      ScaledParses(n, MantissaText(n), n.exponent.value);
    } else {
      PlainParses(MantissaText(n));
    }
  }

  lemma PlainParses(m: string)
    requires forall i :: 0 <= i < |m| ==> LowerChar(m[i]) != 'e'
    ensures ParseUnsigned(m + "") == ParseMantissa(m, 0)
  {
    hide ParseMantissa;
    assert m + "" == m;
    assert 'e' !in Lower(m);
  }

  lemma ScaledParses(n: Numeral, m: string, x: Exponent)
    requires IsNumeral(n) && n.exponent == Some(x)
    requires forall i :: 0 <= i < |m| ==> LowerChar(m[i]) != 'e'
    ensures ParseUnsigned(m + ExponentText(Some(x))) == ParseMantissa(m, ExponentOf(n))
  {
    hide ParseUnsigned, ParseMantissa, ParseExponent, AllDigits, DigitsValue, WholeValue;
    SplitsAtMark(m, x.mark, x.sign + x.digits);
    ExponentParses(x);
    WholeIsDigits(x.digits);
  }

  lemma SplitsAtMark(m: string, mark: char, exponent: string)
    requires mark == 'e' || mark == 'E'
    requires forall i :: 0 <= i < |m| ==> LowerChar(m[i]) != 'e'
    ensures ParseUnsigned(m + ([mark] + exponent))
            == if ParseExponent(exponent).Some? then ParseMantissa(m, ParseExponent(exponent).value) else None
  {
    hide ParseMantissa, ParseExponent;
    var s := m + ([mark] + exponent);
    assert forall i :: 0 <= i < |m| ==> s[i] == m[i];
    MarkAt(s, |m|);
    assert s[..|m|] == m && s[|m| + 1..] == exponent;
  }

  // A mantissa has no exponent mark.
  lemma NoMark(n: Numeral)
    requires IsNumeral(n)
    ensures forall i :: 0 <= i < |MantissaText(n)| ==> LowerChar(MantissaText(n)[i]) != 'e'
  {
    var m := MantissaText(n);
    forall i | 0 <= i < |m|
      ensures IsDigit(m[i]) || m[i] == '.'
    {
      if i > |n.whole| {
        assert m[i] == n.fraction.value[i - |n.whole| - 1];
      }
    }
  }

  lemma MarkAt(s: string, i: nat)
    requires i < |s| && (s[i] == 'e' || s[i] == 'E')
    requires forall j :: 0 <= j < i ==> LowerChar(s[j]) != 'e'
    ensures Find(Lower(s), 'e') == i
  {
    FindAt(Lower(s), 'e', i);
  }

  lemma NumeralParses(n: Numeral)
    requires IsNumeral(n)
    ensures ParseNumber(Written(n)) == Some(DecimalOf(n))
  {
    hide ParseUnsigned, DecimalOf;
    var body := MantissaText(n) + ExponentText(n.exponent);
    UnsignedParses(n);
    StartsUnsigned(n);
    if n.sign == "" {
      assert Written(n) == body;
    } else {
      assert Written(n)[1..] == body && Written(n)[0] == n.sign[0];
    }
    SignOfDecimal(n);
  }

  lemma StartsUnsigned(n: Numeral)
    requires IsNumeral(n)
    ensures !HasSign(MantissaText(n) + ExponentText(n.exponent))
  {
    var s := MantissaText(n) + ExponentText(n.exponent);
    if n.whole != "" {
      assert s[0] == n.whole[0];
    } else {
      assert s[0] == '.';
    }
  }

  lemma SignOfDecimal(n: Numeral)
    requires IsNumeral(n)
    ensures DecimalOf(n).negative <==> n.sign == "-"
  {
  }

  // ---------- every text that is read is a numeral ----------

  lemma MantissaWritten(s: string, exponent: int) returns (whole: string, fraction: Option<string>)
    requires ParseMantissa(s, exponent).Some?
    ensures IsNumeral(Numeral("", whole, fraction, None)) && MantissaText(Numeral("", whole, fraction, None)) == s
  {
    hide DigitsValue;
    var dot := Find(s, '.');
    if dot < 0 {
      whole, fraction := s, None;
      assert s + "" == s;
    } else {
      whole, fraction := s[..dot], Some(s[dot + 1..]);
      PartsAreDigits(whole, s[dot + 1..]);
      assert s == s[..dot] + ("." + s[dot + 1..]);
    }
  }

  lemma PartsAreDigits(a: string, b: string)
    requires AllDigits(a + b)
    ensures AllDigits(a) && AllDigits(b)
  {
    assert forall i :: 0 <= i < |a| ==> a[i] == (a + b)[i];
    assert forall i :: 0 <= i < |b| ==> b[i] == (a + b)[|a| + i];
  }

  lemma ExponentWritten(s: string, mark: char) returns (x: Exponent)
    requires ParseExponent(s).Some? && (mark == 'e' || mark == 'E')
    ensures IsExponent(x) && x.mark == mark && x.sign + x.digits == s
  {
    if HasSign(s) {
      x := Exponent(mark, [s[0]], s[1..]);
    } else {
      x := Exponent(mark, "", s);
    }
  }

  lemma UnsignedWritten(s: string) returns (n: Numeral)
    requires ParseUnsigned(s).Some?
    ensures IsNumeral(n) && n.sign == "" && MantissaText(n) + ExponentText(n.exponent) == s
  {
    hide ParseMantissa, ParseExponent;
    var e := Find(Lower(s), 'e');
    if e < 0 {
      var whole, fraction := MantissaWritten(s, 0);
      n := Numeral("", whole, fraction, None);
      assert s + "" == s;
    } else {
      assert LowerChar(s[e]) == 'e';
      var x := ExponentWritten(s[e + 1..], s[e]);
      var whole, fraction := MantissaWritten(s[..e], ParseExponent(s[e + 1..]).value);
      n := Numeral("", whole, fraction, Some(x));
      assert s == s[..e] + ([s[e]] + s[e + 1..]);
    }
  }

  /** A text is a number if and only if it is a numeral: a sign or none, digits with at most one
      point, and an exponent or none; and what is read is the number it denotes. */
  lemma NumberIff(s: string)
    ensures ParseNumber(s).Some? <==> exists n :: IsNumeral(n) && Written(n) == s
    ensures forall n :: IsNumeral(n) && Written(n) == s ==>
              ParseNumber(s).Some? && ValueOf(ParseNumber(s).value) == Denoted(n)
  {
    hide ParseUnsigned, DecimalOf, ValueOf, Denoted, MantissaText, ExponentText;
    if ParseNumber(s).Some? {
      var body := if HasSign(s) then s[1..] else s;
      var n := UnsignedWritten(body);
      var signed := n.(sign := if HasSign(s) then [s[0]] else "");
      assert IsNumeral(signed);
      assert Written(signed) == s by {
        SameBody(n, signed);
        assert HasSign(s) ==> s == [s[0]] + s[1..];
        assert "" + body == body;
      }
    }
    forall n | IsNumeral(n) && Written(n) == s
      ensures ParseNumber(s).Some? && ValueOf(ParseNumber(s).value) == Denoted(n)
    {
      NumeralParses(n);
      DecimalDenotes(n);
    }
  }

  lemma SameBody(n: Numeral, m: Numeral)
    requires n.whole == m.whole && n.fraction == m.fraction && n.exponent == m.exponent
    ensures MantissaText(n) == MantissaText(m)
  {
  }

  // ---------- the two readers ----------

  /** Decimal() reads a text if and only if it is a numeral once blanks around it and all underscores
      are gone, and reads the number it denotes. */
  lemma DecimalReadsIff(s: string)
    ensures ReadDecimal(s).Some? <==> exists n :: IsNumeral(n) && Written(n) == NoUnderscores(Strip(s))
    ensures forall n :: IsNumeral(n) && Written(n) == NoUnderscores(Strip(s)) ==>
              ReadDecimal(s).Some? && ValueOf(ReadDecimal(s).value) == Denoted(n)
  {
    hide ParseNumber, Written, IsNumeral, ValueOf, Denoted;
    NumberIff(NoUnderscores(Strip(s)));
  }

  /** float() reads what Decimal() reads, as the same number, unless the text holds a misplaced
      underscore or a separator; it reads nothing else. */
  lemma FloatReads(s: string)
    ensures ReadFloat(s) == if ReadDecimal(s).Some? && !FloatRejects(s) then Some(ValueOf(ReadDecimal(s).value)) else None
  {
    hide ParseNumber, LStripFloat, RStripFloat, UnderscoresPlaced, FloatRejects, ValueOf;
    if ReadDecimal(s).Some? {
      FloatRejectsIff(s);
    }
    if ReadFloat(s).Some? {
      var t := LStripFloat(RStripFloat(s));
      var lead, trail := FloatStripSplits(s);
      NumberIsChars(NoUnderscores(t));
      forall i | 0 <= i < |s|
        ensures !IsSeparator(s[i])
      {
        if IsSeparator(s[i]) {
          SeparatorStays(lead, t, trail, i);
        }
      }
      SameRStrip(s);
      SameLStrip(RStrip(s));
    }
  }

  lemma {:induction false} NumeralChars(s: string)
    requires NumberChars(s)
    ensures NoUnderscores(s) == s && NoSeparator(s) && forall i :: 0 <= i < |s| ==> !IsSpace(s[i])
  {
    if s != "" {
      NumeralChars(s[..|s| - 1]);
      assert s == s[..|s| - 1] + [s[|s| - 1]];
    }
  }

  // The blanks that both readers know.
  predicate PlainBlanks(s: string) {
    forall i :: 0 <= i < |s| ==> s[i] == ' ' || s[i] == '\t' || s[i] == '\n' || s[i] == '\r' || 11 <= s[i] as int <= 12
  }

  lemma PlainIsBlank(s: string)
    requires PlainBlanks(s)
    ensures Blank(s) && NoSeparator(s)
  {
  }

  /** A numeral between blanks is read by both readers, as the number it denotes; only Decimal() knows
      the four separators as blanks. */
  lemma BothRead(lead: string, n: Numeral, trail: string)
    requires IsNumeral(n) && Blank(lead) && Blank(trail)
    ensures ReadDecimal(lead + Written(n) + trail) == Some(DecimalOf(n)) && ValueOf(DecimalOf(n)) == Denoted(n)
    ensures PlainBlanks(lead) && PlainBlanks(trail) ==> ReadFloat(lead + Written(n) + trail) == Some(Denoted(n))
  {
    hide ParseNumber, Written, IsNumeral, ValueOf, DecimalOf, Denoted, Strip, NumberChars, ReadFloat;
    var s := Written(n);
    NumeralParses(n);
    DecimalDenotes(n);
    NumberIsChars(s);
    NumeralChars(s);
    StripPad(lead, s, trail);
    FloatReads(lead + s + trail);
    if PlainBlanks(lead) && PlainBlanks(trail) && FloatRejects(lead + s + trail) {
      PlainIsBlank(lead);
      PlainIsBlank(trail);
      NoneRejected(lead, s, trail);
    }
  }

  lemma NoneRejected(lead: string, s: string, trail: string)
    requires Blank(lead) && Blank(trail) && NoSeparator(lead) && NoSeparator(trail) && NumberChars(s)
    ensures !FloatRejects(lead + s + trail)
  {
    var t := lead + s + trail;
    forall i | 0 <= i < |t|
      ensures !OnlyDecimalReads(t, i)
    {
      assert t[i] == if i < |lead| then lead[i] else if i < |lead| + |s| then s[i - |lead|] else trail[i - |lead| - |s|];
    }
  }

  // ---------- from the text to wei ----------

  lemma {:induction false} DigitsOfText(s: string)
    requires AllDigits(s) && s != ""
    ensures NumDigits(DigitsValue(s)) <= |s|
  {
    if |s| > 1 {
      DigitsOfText(s[..|s| - 1]);
    } else {
      assert s[..0] == "";
    }
  }

  // Cutting k digits off a text.
  lemma {:induction false} CutText(s: string, k: nat)
    requires AllDigits(s) && k <= |s|
    ensures Over10(DigitsValue(s), k) == DigitsValue(s[..|s| - k])
    decreases k
  {
    if k == 0 {
      assert s[..|s|] == s;
    } else {
      CutText(s[..|s| - 1], k - 1);
      assert s[..|s| - 1][..|s| - k] == s[..|s| - k];
    }
  }

  function Zeros(n: nat): string {
    seq(n, i => '0')
  }

  lemma {:induction false} ZerosValue(n: nat)
    ensures AllDigits(Zeros(n)) && DigitsValue(Zeros(n)) == 0
  {
    if n > 0 {
      ZerosValue(n - 1);
      assert Zeros(n)[..n - 1] == Zeros(n - 1);
    }
  }

  // The first eighteen places behind the point.
  function Places18(f: string): string {
    if |f| >= 18 then f[..18] else f + Zeros(18 - |f|)
  }

  lemma PlacesAreDigits(f: string)
    requires AllDigits(f)
    ensures AllDigits(Places18(f))
  {
  }

  lemma Quintillion(n: nat)
    ensures Times10(n, 18) == 1000000000000000000 * n
  {
    assert Times10(n, 6) == 1000000 * n;
    assert Times10(1000000 * n, 6) == 1000000000000 * n;
    assert Times10(1000000000000 * n, 6) == 1000000000000000000 * n;
    Times10Add(n, 6, 6);
    Times10Add(n, 12, 6);
  }

  // The digits in front of the point and the first 18 behind it.
  lemma WholeAndPlaces(n: nat, f: string)
    requires AllDigits(f)
    ensures AllDigits(NatText(n) + f)
    ensures AllDigits(Places18(f))
    ensures Over10(Times10(DigitsValue(NatText(n) + f), 18), |f|) == Times10(n, 18) + DigitsValue(Places18(f))
  {
    hide DigitsValue, Times10, Over10, NatText;
    PlacesAreDigits(f);
    DigitsOfNumber(n);
    if |f| <= 18 {
      FewPlaces(NatText(n), n, f);
    } else {
      ManyPlaces(NatText(n), n, f);
    }
  }

  lemma FewPlaces(a: string, n: nat, f: string)
    requires AllDigits(a) && DigitsValue(a) == n && AllDigits(f) && |f| <= 18
    requires AllDigits(a + f) && AllDigits(Places18(f))
    ensures Over10(Times10(DigitsValue(a + f), 18), |f|) == Times10(n, 18) + DigitsValue(Places18(f))
  {
    hide DigitsValue, Times10, Over10;
    var c, k := DigitsValue(a + f), 18 - |f|;
    DigitsAppend(a, f);
    Times10Add(c, k, |f|);
    Cancel(Times10(c, k), 0, |f|);
    Times10Linear(Times10(n, |f|), DigitsValue(f), k);
    Times10Add(n, |f|, k);
    ZerosValue(k);
    DigitsAppend(f, Zeros(k));
    assert |f| == 18 ==> f + Zeros(0) == f[..18];
  }

  lemma ManyPlaces(a: string, n: nat, f: string)
    requires AllDigits(a) && DigitsValue(a) == n && AllDigits(f) && |f| > 18
    requires AllDigits(a + f) && AllDigits(Places18(f))
    ensures Over10(Times10(DigitsValue(a + f), 18), |f|) == Times10(n, 18) + DigitsValue(Places18(f))
  {
    hide DigitsValue, Times10, Over10;
    var k := |f| - 18;
    Cancel(DigitsValue(a + f), k, 18);
    CutText(a + f, k);
    assert (a + f)[..|a + f| - k] == a + f[..18];
    DigitsAppend(a, f[..18]);
  }

  function PlainNumeral(n: nat, f: string): Numeral {
    Numeral("", NatText(n), Some(f), None)
  }

  lemma PlainText(n: nat, f: string)
    requires AllDigits(f)
    ensures IsNumeral(PlainNumeral(n, f)) && Written(PlainNumeral(n, f)) == NatText(n) + "." + f
    ensures Denoted(PlainNumeral(n, f)) == n as real + FractionValue(f)
  {
    hide DigitsValue, WholeValue, FractionValue;
    var m := PlainNumeral(n, f);
    assert MantissaText(m) == NatText(n) + "." + f;
    assert "" + (MantissaText(m) + "") == MantissaText(m);
    DigitsOfNumber(n);
    WholeIsDigits(NatText(n));
  }

  /** From the text to wei: an amount typed as a whole number, a point and any digits, 28 in all at
      most, is worth that whole number times 10^18 and its first eighteen places behind the point,
      and float() reads it as the number written. */
  lemma TypedAmount(n: nat, f: string)
    requires AllDigits(f) && |NatText(n)| + |f| <= 28
    ensures AllDigits(Places18(f))
    ensures ParseAmountToWei(ReadDecimal(NatText(n) + "." + f))
            == Some(1000000000000000000 * n + DigitsValue(Places18(f)))
    ensures ReadFloat(NatText(n) + "." + f) == Some(n as real + FractionValue(f))
  {
    hide DigitsValue, Written, IsNumeral, Denoted, ReadFloat, ReadDecimal, Times10, Over10, ToWei, NatText, Places18;
    var text := NatText(n) + "." + f;
    PlainText(n, f);
    BothRead("", PlainNumeral(n, f), "");
    assert "" + text + "" == text;
    var d := Decimal(false, DigitsValue(NatText(n) + f), -(|f| as int));
    WholeAndPlaces(n, f);
    DecimalOfPlain(n, f);
    DigitsOfText(NatText(n) + f);
    WeiIsFloor(d, |f|);
    Quintillion(n);
    NothingFromZero(|f|);
  }

  lemma DecimalOfPlain(n: nat, f: string)
    requires AllDigits(f) && IsNumeral(PlainNumeral(n, f)) && AllDigits(NatText(n) + f)
    ensures DecimalOf(PlainNumeral(n, f)) == Decimal(false, DigitsValue(NatText(n) + f), -(|f| as int))
  {
  }

  lemma {:induction false} NothingFromZero(n: nat)
    ensures Times10(0, 18) == 0 && Over10(0, n) == 0
  {
    if n > 0 {
      NothingFromZero(n - 1);
    } else {
      Quintillion(0);
    }
  }
}
