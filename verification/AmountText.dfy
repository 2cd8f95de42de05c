/** The text of an amount, as Decimal() and as float() read it: two readers that accept different
    texts. ASCII text and finite numbers only. */
module AmountText {
  import opened Text
  import opened DecimalAmount
  import opened Rounding

  // ---------- numbers without underscores ----------

  function ParseExponent(s: string): Option<int> {
    var digits := if HasSign(s) then s[1..] else s;
    if digits == "" || !AllDigits(digits) then None
    else Some(if HasSign(s) && s[0] == '-' then -(DigitsValue(digits) as int) else DigitsValue(digits))
  }

  // Digits with at most one point among them.
  function ParseMantissa(s: string, exponent: int): Option<Decimal> {
    var dot := Find(s, '.');
    var fraction := if dot < 0 then "" else s[dot + 1..];
    var digits := (if dot < 0 then s else s[..dot]) + fraction;
    if digits == "" || !AllDigits(digits) then None
    else Some(Decimal(false, DigitsValue(digits), exponent - |fraction|))
  }

  function ParseUnsigned(s: string): Option<Decimal> {
    var e := Find(Lower(s), 'e');
    if e < 0 then ParseMantissa(s, 0)
    else
      match ParseExponent(s[e + 1..])
      case None => None
      case Some(exponent) => ParseMantissa(s[..e], exponent)
  }

  // The finite numbers that both readers know.
  function ParseNumber(s: string): Option<Decimal> {
    match ParseUnsigned(if HasSign(s) then s[1..] else s)
    case None => None
    case Some(d) => Some(d.(negative := HasSign(s) && s[0] == '-'))
  }

  // ---------- Decimal() ----------

  // Blanks around the number and every underscore are dropped.
  function ReadDecimal(s: string): Option<Decimal> {
    ParseNumber(NoUnderscores(Strip(s)))
  }

  // ---------- float() ----------

  // float() strips fewer characters: the four information separators are no blanks to it.
  predicate IsSeparator(c: char) { 28 <= c as int <= 31 }

  predicate IsFloatSpace(c: char) { IsSpace(c) && !IsSeparator(c) }

  function LStripFloat(s: string): string {
    if s != "" && IsFloatSpace(s[0]) then LStripFloat(s[1..]) else s
  }

  function RStripFloat(s: string): string {
    if s != "" && IsFloatSpace(s[|s| - 1]) then RStripFloat(s[..|s| - 1]) else s
  }

  // The exact value of a decimal; float() gives the nearest binary number.
  function ValueOf(d: Decimal): real {
    var c := d.coefficient as real;
    var value := if d.exponent >= 0 then Up(c, d.exponent) else Down(c, -d.exponent);
    if d.negative then -value else value
  }

  // An underscore must stand between two digits.
  function ReadFloat(s: string): Option<real> {
    var t := LStripFloat(RStripFloat(s));
    if !UnderscoresPlaced(t) then None
    else
      match ParseNumber(NoUnderscores(t))
      case None => None
      case Some(d) => Some(ValueOf(d))
  }

  // ---------- where they differ ----------

  // What makes float() reject a text at this place.
  predicate OnlyDecimalReads(s: string, i: nat)
    requires i < |s|
  {
    IsSeparator(s[i]) || (s[i] == '_' && !BetweenDigits(s, i))
  }

  predicate FloatRejects(s: string) {
    exists i :: 0 <= i < |s| && OnlyDecimalReads(s, i)
  }

  predicate NumberChar(c: char) {
    IsDigit(c) || c == '.' || c == 'e' || c == 'E' || c == '+' || c == '-'
  }

  predicate NumberChars(s: string) {
    forall i :: 0 <= i < |s| ==> NumberChar(s[i])
  }

  lemma MantissaChars(s: string, exponent: int)
    requires ParseMantissa(s, exponent).Some?
    ensures NumberChars(s)
  {
    var dot := Find(s, '.');
    if dot >= 0 {
      var digits := s[..dot] + s[dot + 1..];
      assert s == s[..dot] + "." + s[dot + 1..];
      forall i | 0 <= i < |s|
        ensures NumberChar(s[i])
      {
        if i < dot {
          assert s[i] == digits[i];
        } else if i > dot {
          assert s[i] == digits[i - 1];
        }
      }
    } else {
      assert s + "" == s;
    }
  }

  lemma ExponentChars(s: string)
    requires ParseExponent(s).Some?
    ensures NumberChars(s)
  {
    if HasSign(s) {
      assert forall i :: 0 < i < |s| ==> s[i] == s[1..][i - 1];
    }
  }

  lemma UnsignedChars(s: string)
    requires ParseUnsigned(s).Some?
    ensures NumberChars(s)
  {
    hide ParseMantissa, ParseExponent;
    var e := Find(Lower(s), 'e');
    if e < 0 {
      MantissaChars(s, 0);
    } else {
      ExponentChars(s[e + 1..]);
      MantissaChars(s[..e], ParseExponent(s[e + 1..]).value);
      assert LowerChar(s[e]) == 'e';
      assert forall i :: 0 <= i < e ==> s[i] == s[..e][i];
      assert forall i :: e < i < |s| ==> s[i] == s[e + 1..][i - e - 1];
    }
  }

  // A number is written with digits, points, exponent marks and signs only.
  lemma NumberIsChars(s: string)
    requires ParseNumber(s).Some?
    ensures NumberChars(s)
  {
    hide ParseUnsigned;
    UnsignedChars(if HasSign(s) then s[1..] else s);
    if HasSign(s) {
      assert forall i :: 0 < i < |s| ==> s[i] == s[1..][i - 1];
    }
  }

  lemma {:induction false} NoUnderscoresKeeps(s: string, i: nat)
    requires i < |s| && s[i] != '_'
    ensures s[i] in NoUnderscores(s)
  {
    if i < |s| - 1 {
      NoUnderscoresKeeps(s[..|s| - 1], i);
    }
  }

  lemma {:induction false} FloatStripSplits(s: string) returns (lead: string, trail: string)
    ensures var t := LStripFloat(RStripFloat(s));
            && s == lead + t + trail
            && (forall i :: 0 <= i < |lead| ==> IsFloatSpace(lead[i]))
            && (forall i :: 0 <= i < |trail| ==> IsFloatSpace(trail[i]))
    decreases |s|
  {
    if s != "" && IsFloatSpace(s[|s| - 1]) {
      var l, t := FloatStripSplits(s[..|s| - 1]);
      lead, trail := l, t + [s[|s| - 1]];
      assert s == s[..|s| - 1] + [s[|s| - 1]];
    } else {
      trail := "";
      lead := FloatLeadSplits(s);
      assert s + "" == s;
    }
  }

  lemma {:induction false} FloatLeadSplits(s: string) returns (lead: string)
    ensures s == lead + LStripFloat(s) && forall i :: 0 <= i < |lead| ==> IsFloatSpace(lead[i])
  {
    if s != "" && IsFloatSpace(s[0]) {
      var l := FloatLeadSplits(s[1..]);
      lead := [s[0]] + l;
      assert s == [s[0]] + s[1..];
    } else {
      lead := "";
      assert "" + s == s;
    }
  }

  predicate NoSeparator(s: string) {
    forall i :: 0 <= i < |s| ==> !IsSeparator(s[i])
  }

  lemma {:induction false} SameLStrip(s: string)
    requires NoSeparator(s)
    ensures LStripFloat(s) == LStrip(s)
  {
    if s != "" && IsSpace(s[0]) {
      SameLStrip(s[1..]);
    }
  }

  lemma {:induction false} SameRStrip(s: string)
    requires NoSeparator(s)
    ensures RStripFloat(s) == RStrip(s) && NoSeparator(RStrip(s))
  {
    if s != "" && IsSpace(s[|s| - 1]) {
      SameRStrip(s[..|s| - 1]);
    }
  }

  // Blanks around a text do not change which of its underscores stand between digits.
  lemma PlacedInPadded(lead: string, t: string, trail: string)
    requires forall i :: 0 <= i < |lead| ==> IsFloatSpace(lead[i])
    requires forall i :: 0 <= i < |trail| ==> IsFloatSpace(trail[i])
    ensures UnderscoresPlaced(lead + t + trail) <==> UnderscoresPlaced(t)
  {
    var s, n := lead + t + trail, |lead|;
    forall i | 0 <= i < |t| && t[i] == '_'
      ensures BetweenDigits(t, i) <==> BetweenDigits(s, n + i)
    {
      assert s[n + i] == t[i];
      assert i > 0 ==> s[n + i - 1] == t[i - 1];
      assert i < |t| - 1 ==> s[n + i + 1] == t[i + 1];
    }
    if UnderscoresPlaced(s) {
      forall i | 0 <= i < |t| && t[i] == '_'
        ensures BetweenDigits(t, i)
      {
        assert s[n + i] == '_';
      }
    }
    if UnderscoresPlaced(t) {
      forall i | 0 <= i < |s| && s[i] == '_'
        ensures BetweenDigits(s, i)
      {
        assert n <= i < n + |t| && t[i - n] == '_';
      }
    }
  }

  /** On a text that Decimal() reads, float() raises if and only if it holds an underscore that does
      not stand between two digits, or one of the four separators; both can be seen beforehand. */
  lemma FloatRejectsIff(s: string)
    requires ReadDecimal(s).Some?
    ensures ReadFloat(s) == None <==> FloatRejects(s)
  {
    hide ParseNumber, LStripFloat, RStripFloat, BetweenDigits;
    var t := LStripFloat(RStripFloat(s));
    var lead, trail := FloatStripSplits(s);
    PlacedInPadded(lead, t, trail);
    if i :| 0 <= i < |s| && IsSeparator(s[i]) {
      assert OnlyDecimalReads(s, i);
      SeparatorStays(lead, t, trail, i);
      if ParseNumber(NoUnderscores(t)).Some? {
        NumberIsChars(NoUnderscores(t));
      }
    } else {
      SameRStrip(s);
      SameLStrip(RStrip(s));
      RejectsUnplaced(s);
    }
  }

  lemma RejectsUnplaced(s: string)
    requires NoSeparator(s)
    ensures FloatRejects(s) <==> !UnderscoresPlaced(s)
  {
    hide BetweenDigits, IsSeparator;
    if !UnderscoresPlaced(s) {
      var i :| 0 <= i < |s| && s[i] == '_' && !BetweenDigits(s, i);
      assert OnlyDecimalReads(s, i);
    }
  }

  lemma SeparatorStays(lead: string, t: string, trail: string, i: nat)
    requires forall i :: 0 <= i < |lead| ==> IsFloatSpace(lead[i])
    requires forall i :: 0 <= i < |trail| ==> IsFloatSpace(trail[i])
    requires i < |lead + t + trail| && IsSeparator((lead + t + trail)[i])
    ensures exists c :: c in NoUnderscores(t) && IsSeparator(c)
  {
    var s := lead + t + trail;
    assert |lead| <= i < |lead| + |t| && s[i] == t[i - |lead|];
    NoUnderscoresKeeps(t, i - |lead|);
  }

  // ---------- such texts ----------

  lemma {:induction false} NoUnderscoresAppend(a: string, b: string)
    ensures NoUnderscores(a + b) == NoUnderscores(a) + NoUnderscores(b)
  {
    if b == "" {
      assert a + b == a;
    } else {
      assert (a + b)[..|a + b| - 1] == a + b[..|b| - 1];
      NoUnderscoresAppend(a, b[..|b| - 1]);
    }
  }

  lemma {:induction false} NoUnderscoresInDigits(s: string)
    requires AllDigits(s)
    ensures NoUnderscores(s) == s
  {
    if s != "" {
      NoUnderscoresInDigits(s[..|s| - 1]);
      assert s == s[..|s| - 1] + [s[|s| - 1]];
    }
  }

  lemma DigitsAreNumber(s: string)
    requires s != "" && AllDigits(s)
    ensures ParseNumber(s) == Some(Decimal(false, DigitsValue(s), 0))
  {
    assert '.' !in s && 'e' !in Lower(s);
    assert !HasSign(s);
    assert s + "" == s;
  }

  lemma TwoUnderscores()
    ensures NoUnderscores("__") == ""
  {
    assert "__"[..1] == "_" && "_"[..0] == "";
  }

  lemma OnlyDigitsLeft(a: string, b: string)
    requires AllDigits(a) && AllDigits(b)
    ensures NoUnderscores(a + "__" + b) == a + b
  {
    hide NoUnderscores;
    NoUnderscoresAppend(a + "__", b);
    NoUnderscoresAppend(a, "__");
    NoUnderscoresInDigits(a);
    NoUnderscoresInDigits(b);
    TwoUnderscores();
    assert a + "" == a;
  }

  lemma NoBlankAround(lead: string, s: string)
    requires Blank(lead) && s != "" && !IsSpace(s[0]) && !IsSpace(s[|s| - 1])
    ensures Strip(lead + s) == s
  {
    hide Strip;
    assert lead + s == lead + s + "";
    StripPad(lead, s, "");
  }

  /** Two underscores between digits: Decimal() reads the digits as one number, float() raises. */
  lemma DoubledUnderscore(a: string, b: string)
    requires a != "" && b != "" && AllDigits(a) && AllDigits(b)
    ensures ReadDecimal(a + "__" + b) == Some(Decimal(false, DigitsValue(a + b), 0))
    ensures ReadFloat(a + "__" + b) == None
  {
    hide ParseNumber, DigitsValue, Strip, NoUnderscores, ReadFloat;
    var s := a + "__" + b;
    NoBlankAround("", s);
    assert "" + s == s;
    OnlyDigitsLeft(a, b);
    DigitsAreNumber(a + b);
    assert s[|a|] == '_' && s[|a| + 1] == '_';
    assert OnlyDecimalReads(s, |a|);
    FloatRejectsIff(s);
  }

  /** A separator in front of digits: Decimal() takes it for a blank, float() raises. */
  lemma SeparatorInFront(c: char, digits: string)
    requires 28 <= c as int <= 31 && digits != "" && AllDigits(digits)
    ensures ReadDecimal([c] + digits) == Some(Decimal(false, DigitsValue(digits), 0))
    ensures ReadFloat([c] + digits) == None
  {
    hide ParseNumber, DigitsValue, Strip, NoUnderscores, ReadFloat;
    NoBlankAround([c], digits);
    NoUnderscoresInDigits(digits);
    DigitsAreNumber(digits);
    assert OnlyDecimalReads([c] + digits, 0);
    FloatRejectsIff([c] + digits);
  }
}
