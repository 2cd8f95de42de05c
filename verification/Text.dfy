/** Character and string operations of the Python runtime, on ASCII text.
    A byte string is a string too: the byte b is the character with code b. */
module Text {

  datatype Option<+T> = None | Some(value: T)

  // The ASCII characters that str.strip() and str.split() treat as blank.
  predicate IsSpace(c: char) {
    9 <= c as int <= 13 || 28 <= c as int <= 32
  }

  predicate Blank(s: string) {
    forall i :: 0 <= i < |s| ==> IsSpace(s[i])
  }

  function LowerChar(c: char): char {
    if 'A' <= c <= 'Z' then (c as int + 32) as char else c
  }

  function UpperChar(c: char): char {
    if 'a' <= c <= 'z' then (c as int - 32) as char else c
  }

  function Lower(s: string): (r: string)
    ensures |r| == |s|
    ensures forall i :: 0 <= i < |s| ==> r[i] == LowerChar(s[i])
  {
    seq(|s|, i requires 0 <= i < |s| => LowerChar(s[i]))
  }

  function Upper(s: string): (r: string)
    ensures |r| == |s|
    ensures forall i :: 0 <= i < |s| ==> r[i] == UpperChar(s[i])
  {
    seq(|s|, i requires 0 <= i < |s| => UpperChar(s[i]))
  }

  // Equal, or the two cases of one letter of ASCII.
  predicate SameLetter(a: char, b: char) {
    a == b || ('a' <= a <= 'z' && b as int == a as int - 32) || ('a' <= b <= 'z' && a as int == b as int - 32)
  }

  predicate SameText(s: string, t: string) {
    |s| == |t| && forall i :: 0 <= i < |s| ==> SameLetter(s[i], t[i])
  }

  /** Two texts have the same lower-case form, and the same upper-case form, exactly when they differ
      in the case of letters at most; the one form has no capital and the other no small letter. */
  lemma CaseForms(s: string, t: string)
    ensures Lower(s) == Lower(t) <==> SameText(s, t)
    ensures Upper(s) == Upper(t) <==> SameText(s, t)
    ensures forall i :: 0 <= i < |s| ==> !('A' <= Lower(s)[i] <= 'Z') && !('a' <= Upper(s)[i] <= 'z')
  {
    if Lower(s) == Lower(t) {
      assert forall i :: 0 <= i < |s| ==> Lower(s)[i] == Lower(t)[i];
    }
    if Upper(s) == Upper(t) {
      assert forall i :: 0 <= i < |s| ==> Upper(s)[i] == Upper(t)[i];
    }
  }

  // str.find on one character: the first position, or -1.
  function Find(s: string, c: char): (k: int)
    ensures -1 <= k < |s|
    ensures k == -1 <==> c !in s
    ensures k >= 0 ==> s[k] == c && c !in s[..k]
  {
    if s == "" then -1
    else if s[0] == c then 0
    else
      var k := Find(s[1..], c);
      if k < 0 then assert s == [s[0]] + s[1..]; -1
      else assert s[..k + 1] == [s[0]] + s[1..][..k]; k + 1
  }

  lemma {:induction false} FindAt(s: string, c: char, i: nat)
    requires i < |s| && s[i] == c && forall j :: 0 <= j < i ==> s[j] != c
    ensures Find(s, c) == i
  {
    if i > 0 {
      FindAt(s[1..], c, i - 1);
    }
  }

  predicate IsDigit(c: char) { '0' <= c <= '9' }

  function DigitValue(c: char): nat requires IsDigit(c) { c as int - '0' as int }

  // str(n) for a natural number.
  function NatText(n: nat): (s: string)
    ensures s != "" && forall i :: 0 <= i < |s| ==> IsDigit(s[i])
  {
    var d := (n % 10 + '0' as int) as char;
    if n < 10 then [d] else NatText(n / 10) + [d]
  }

  // ---------- numerals ----------

  predicate AllDigits(s: string) {
    forall i :: 0 <= i < |s| ==> IsDigit(s[i])
  }

  function DigitsValue(s: string): nat
    requires AllDigits(s)
  {
    if s == "" then 0 else 10 * DigitsValue(s[..|s| - 1]) + DigitValue(s[|s| - 1])
  }

  predicate HasSign(s: string) {
    s != "" && (s[0] == '-' || s[0] == '+')
  }

  // Python lets an underscore stand between two digits of a numeral.
  predicate BetweenDigits(s: string, i: nat) {
    0 < i < |s| - 1 && IsDigit(s[i - 1]) && IsDigit(s[i + 1])
  }

  predicate UnderscoresPlaced(s: string) {
    forall i :: 0 <= i < |s| && s[i] == '_' ==> BetweenDigits(s, i)
  }

  // The text without its underscores.
  function NoUnderscores(s: string): string {
    if s == "" then ""
    else NoUnderscores(s[..|s| - 1]) + if s[|s| - 1] == '_' then "" else [s[|s| - 1]]
  }

  lemma {:induction false} DigitsOfNumber(n: nat)
    ensures AllDigits(NatText(n)) && DigitsValue(NatText(n)) == n
  {
    if n >= 10 {
      DigitsOfNumber(n / 10);
      assert NatText(n)[..|NatText(n)| - 1] == NatText(n / 10);
    }
  }

  // ---------- blanks around a text ----------

  function LStrip(s: string): string {
    if s != "" && IsSpace(s[0]) then LStrip(s[1..]) else s
  }

  function RStrip(s: string): string {
    if s != "" && IsSpace(s[|s| - 1]) then RStrip(s[..|s| - 1]) else s
  }

  function Strip(s: string): string {
    LStrip(RStrip(s))
  }

  // Needle occurs in hay as a contiguous block: Python's `needle in hay`.
  predicate Contains(hay: string, needle: string) {
    exists i :: 0 <= i <= |hay| && OccursAt(hay, needle, i)
  }

  predicate OccursAt(hay: string, needle: string, i: nat) {
    i + |needle| <= |hay| && hay[i..i + |needle|] == needle
  }

  lemma {:induction false} LStripPad(lead: string, core: string)
    requires Blank(lead)
    requires core != "" ==> !IsSpace(core[0])
    ensures LStrip(lead + core) == core
  {
    if lead == "" {
      assert lead + core == core;
    } else {
      assert (lead + core)[1..] == lead[1..] + core;
      LStripPad(lead[1..], core);
    }
  }

  lemma {:induction false} RStripPad(core: string, trail: string)
    requires Blank(trail)
    requires core != "" ==> !IsSpace(core[|core| - 1])
    ensures RStrip(core + trail) == core
  {
    if trail == "" {
      assert core + trail == core;
    } else {
      assert (core + trail)[..|core + trail| - 1] == core + trail[..|trail| - 1];
      RStripPad(core, trail[..|trail| - 1]);
    }
  }

  // Stripping removes exactly the blank padding around a core with no blank end.
  lemma StripPad(lead: string, core: string, trail: string)
    requires Blank(lead) && Blank(trail)
    requires core != "" ==> !IsSpace(core[0]) && !IsSpace(core[|core| - 1])
    ensures Strip(lead + core + trail) == core
  {
    if core == "" {
      assert lead + core + trail == "" + (lead + trail);
      RStripPad("", lead + trail);
    } else {
      RStripPad(lead + core, trail);
      LStripPad(lead, core);
    }
  }

  // Every string is blank padding around its stripped form.
  lemma {:induction false} StripSplits(s: string) returns (lead: string, trail: string)
    ensures Blank(lead) && Blank(trail)
    ensures s == lead + Strip(s) + trail
    ensures Strip(s) != "" ==> !IsSpace(Strip(s)[0]) && !IsSpace(Strip(s)[|Strip(s)| - 1])
    decreases |s|
  {
    if s != "" && IsSpace(s[|s| - 1]) {
      var l, t := StripSplits(s[..|s| - 1]);
      lead, trail := l, t + [s[|s| - 1]];
      assert s == s[..|s| - 1] + [s[|s| - 1]];
      assert s == lead + Strip(s) + trail;
    } else {
      trail := "";
      lead := LStripSplits(s);
      assert s == lead + Strip(s) + trail;
    }
  }

  lemma {:induction false} LStripSplits(s: string) returns (lead: string)
    ensures Blank(lead) && s == lead + LStrip(s)
    ensures LStrip(s) != "" ==> !IsSpace(LStrip(s)[0]) && LStrip(s)[|LStrip(s)| - 1] == s[|s| - 1]
  {
    hide IsSpace;
    if s != "" && IsSpace(s[0]) {
      var l := LStripSplits(s[1..]);
      lead := [s[0]] + l;
      assert s == [s[0]] + s[1..] == lead + LStrip(s);
    } else {
      lead := "";
      assert s == lead + s;
    }
  }

  // Blanks have no case.
  lemma LowerPad(lead: string, core: string, trail: string)
    requires Blank(lead) && Blank(trail)
    ensures Lower(lead + core + trail) == lead + Lower(core) + trail
  {
  }

  lemma StripLower(s: string)
    ensures Strip(Lower(s)) == Lower(Strip(s))
  {
    hide Strip, Lower;
    var lead, trail := StripSplits(s);
    var core := Strip(s);
    LowerPad(lead, core, trail);
    assert |Lower(core)| == |core|;
    assert core != "" ==> Lower(core)[0] == LowerChar(core[0]) && Lower(core)[|core| - 1] == LowerChar(core[|core| - 1]);
    StripPad(lead, Lower(core), trail);
  }
}
