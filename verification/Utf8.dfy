/** UTF-8 as the encoding of code points (RFC 3629, section 3), and the framings on text: every text
    gets through. */
module Utf8 {
  import opened Text
  import opened Framing
  import opened FramingRoundTrip

  // A Unicode scalar value: a code point that is no surrogate.
  type CodePoint = c: int | 0 <= c < 0xD800 || 0xE000 <= c <= 0x10FFFF

  // The text as a sequence of code points.
  type Unicode = seq<CodePoint>

  function Byte(b: int): char
    requires 0 <= b < 256
  {
    b as char
  }

  // A byte that carries six more bits.
  function Tail(bits: int): char
    requires 0 <= bits
  {
    Byte(0x80 + bits % 64)
  }

  function EncodeChar(c: CodePoint): Bytes {
    if c < 0x80 then [Byte(c)]
    else if c < 0x800 then [Byte(0xC0 + c / 64), Tail(c)]
    else if c < 0x10000 then [Byte(0xE0 + c / 4096), Tail(c / 64), Tail(c)]
    else [Byte(0xF0 + c / 262144), Tail(c / 4096), Tail(c / 64), Tail(c)]
  }

  function Encoded(text: Unicode): Bytes {
    if text == [] then "" else EncodeChar(text[0]) + Encoded(text[1..])
  }

  // ---------- one character ----------

  // The code point that the first character of these bytes stands for.
  function FirstCodePoint(s: Bytes): CodePoint
    requires s != "" && CharLength(s) > 0
  {
    var k := CharLength(s);
    if k == 1 then s[0] as int
    else if k == 2 then Join2(s[0] as int - 0xC0, Bits(s[1]))
    else if k == 3 then Join2(Join2(s[0] as int - 0xE0, Bits(s[1])), Bits(s[2]))
    else Join2(Join2(Join2(s[0] as int - 0xF0, Bits(s[1])), Bits(s[2])), Bits(s[3]))
  }

  function Bits(c: char): int { c as int - 0x80 }

  function Join2(high: int, low: int): int { 64 * high + low }

  lemma DivideTwice(c: nat)
    ensures c / 4096 == c / 64 / 64 && c / 262144 == c / 64 / 64 / 64
  {
  }

  lemma TailBits(high: nat, low: nat)
    requires low < 64
    ensures Bits(Tail(Join2(high, low))) == low && Join2(high, low) / 64 == high
  {
  }

  lemma TailJoins(c: nat)
    ensures Join2(c / 64, Bits(Tail(c))) == c && Within(Tail(c), 0x80, 0xBF)
  {
  }

  // What CharLength asks of the second byte of a long character.
  lemma SecondByte(c: CodePoint)
    ensures 0x800 <= c < 0x10000 ==>
              var first, second := Byte(0xE0 + c / 4096), Tail(c / 64);
              Within(second, if first as int == 0xE0 then 0xA0 else 0x80, if first as int == 0xED then 0x9F else 0xBF)
    ensures 0x10000 <= c ==>
              var first, second := Byte(0xF0 + c / 262144), Tail(c / 4096);
              && Within(first, 0xF0, 0xF4)
              && Within(second, if first as int == 0xF0 then 0x90 else 0x80, if first as int == 0xF4 then 0x8F else 0xBF)
  {
  }

  lemma EncodedCharIsRead(c: CodePoint)
    ensures CharLength(EncodeChar(c)) == |EncodeChar(c)| > 0
  {
    hide Tail;
    SecondByte(c);
    TailJoins(c);
    TailJoins(c / 64);
    TailJoins(c / 4096);
  }

  lemma SameCodePoint(c: CodePoint)
    ensures CharLength(EncodeChar(c)) > 0 && FirstCodePoint(EncodeChar(c)) == c
  {
    hide Tail, Bits, CharLength, Join2;
    EncodedCharIsRead(c);
    DivideTwice(c);
    TailJoins(c);
    TailJoins(c / 64);
    TailJoins(c / 64 / 64);
    assert 0x80 <= c < 0x800 ==> Join2(c / 64, Bits(Tail(c))) == c;
  }

  lemma CharIsRead(c: CodePoint, rest: Bytes)
    ensures CharLength(EncodeChar(c) + rest) == |EncodeChar(c)| > 0
    ensures FirstCodePoint(EncodeChar(c) + rest) == c
  {
    hide EncodeChar, CharLength;
    EncodedCharIsRead(c);
    SameCodePoint(c);
    CharLengthAppend(EncodeChar(c), rest);
    assert forall i :: 0 <= i < |EncodeChar(c)| ==> (EncodeChar(c) + rest)[i] == EncodeChar(c)[i];
  }

  lemma FirstCharEncodes(s: Bytes)
    requires s != "" && CharLength(s) > 0
    ensures EncodeChar(FirstCodePoint(s)) == s[..CharLength(s)]
  {
    hide EncodeChar;
    match CharLength(s)
    case 1 => OneByte(s);
    case 2 => TwoBytes(s);
    case 3 => ThreeBytes(s);
    case _ => FourBytes(s);
  }

  lemma OneByte(s: Bytes)
    requires s != "" && CharLength(s) == 1
    ensures EncodeChar(FirstCodePoint(s)) == s[..1]
  {
  }

  lemma TwoBytes(s: Bytes)
    requires s != "" && CharLength(s) == 2
    ensures EncodeChar(FirstCodePoint(s)) == s[..2]
  {
    TailBits(s[0] as int - 0xC0, Bits(s[1]));
  }

  lemma ThreeBytes(s: Bytes)
    requires s != "" && CharLength(s) == 3
    ensures EncodeChar(FirstCodePoint(s)) == s[..3]
  {
    hide Tail;
    var c1 := Join2(s[0] as int - 0xE0, Bits(s[1]));
    TailBits(s[0] as int - 0xE0, Bits(s[1]));
    TailBits(c1, Bits(s[2]));
    DivideTwice(Join2(c1, Bits(s[2])));
  }

  lemma FourBytes(s: Bytes)
    requires s != "" && CharLength(s) > 3
    ensures CharLength(s) == 4 && EncodeChar(FirstCodePoint(s)) == s[..4]
  {
    hide Tail;
    var c1 := Join2(s[0] as int - 0xF0, Bits(s[1]));
    var c2 := Join2(c1, Bits(s[2]));
    TailBits(s[0] as int - 0xF0, Bits(s[1]));
    TailBits(c1, Bits(s[2]));
    TailBits(c2, Bits(s[3]));
    DivideTwice(Join2(c2, Bits(s[3])));
  }

  // ---------- whole texts ----------

  // The text that these bytes encode.
  function Decoded(s: Bytes): Unicode
    requires ValidUtf8(s)
  {
    if s == "" then [] else [FirstCodePoint(s)] + Decoded(s[CharLength(s)..])
  }

  lemma {:induction false} EncodedIsValid(text: Unicode)
    ensures ValidUtf8(Encoded(text)) && Decoded(Encoded(text)) == text
  {
    hide EncodeChar, CharLength, FirstCodePoint;
    if text != [] {
      EncodedIsValid(text[1..]);
      CharIsRead(text[0], Encoded(text[1..]));
      assert Encoded(text)[|EncodeChar(text[0])|..] == Encoded(text[1..]);
    }
  }

  lemma {:induction false} ValidIsEncoded(s: Bytes)
    requires ValidUtf8(s)
    ensures Encoded(Decoded(s)) == s
    decreases |s|
  {
    hide EncodeChar, CharLength, FirstCodePoint;
    if s != "" {
      ValidIsEncoded(s[CharLength(s)..]);
      FirstCharEncodes(s);
      assert s == s[..CharLength(s)] + s[CharLength(s)..];
      assert Decoded(s)[1..] == Decoded(s[CharLength(s)..]);
    }
  }

  /** Bytes decode if and only if they are the UTF-8 encoding of some text, and no two texts have the
      same encoding. */
  lemma ValidIffEncoded(s: Bytes)
    ensures ValidUtf8(s) <==> exists text :: Encoded(text) == s
    ensures forall t1, t2 :: Encoded(t1) == Encoded(t2) ==> t1 == t2
  {
    hide ValidUtf8, Encoded;
    if ValidUtf8(s) {
      ValidIsEncoded(s);
    }
    forall text
      ensures ValidUtf8(Encoded(text)) && Decoded(Encoded(text)) == text
    {
      EncodedIsValid(text);
    }
  }

  // ---------- texts on the wire ----------

  // A character of ASCII that str.strip() takes for a blank and that ends no line.
  predicate Pads(c: char) {
    c == ' ' || c == '\t' || c == '\r' || c as int == 11 || c as int == 12 || 28 <= c as int <= 31
  }

  predicate Padding(s: Bytes) {
    forall i :: 0 <= i < |s| ==> Pads(s[i])
  }

  // A text whose first and last characters are no blanks of ASCII.
  predicate Trimmed(text: Unicode) {
    text != [] && !BlankPoint(text[0]) && !BlankPoint(text[|text| - 1])
  }

  predicate BlankPoint(c: CodePoint) {
    c == 10 || (c < 128 && Pads(c as char))
  }

  lemma {:induction false} EncodedAppend(a: Unicode, b: Unicode)
    ensures Encoded(a + b) == Encoded(a) + Encoded(b)
  {
    hide EncodeChar;
    if a == [] {
      assert a + b == b;
    } else {
      assert (a + b)[1..] == a[1..] + b;
      EncodedAppend(a[1..], b);
    }
  }

  // The bytes of a character beyond ASCII are no ASCII characters.
  lemma EncodedBytes(c: CodePoint)
    ensures |EncodeChar(c)| > 0
    ensures if c < 128 then EncodeChar(c) == [c as char]
            else forall i :: 0 <= i < |EncodeChar(c)| ==> EncodeChar(c)[i] as int >= 128
  {
  }

  lemma {:induction false} NewlineInText(text: Unicode)
    ensures '\n' in Encoded(text) <==> 10 in text
  {
    hide EncodeChar;
    if text != [] {
      NewlineInText(text[1..]);
      EncodedBytes(text[0]);
      assert text == [text[0]] + text[1..];
    }
  }

  lemma TrimmedIsStripped(text: Unicode)
    requires Trimmed(text)
    ensures Encoded(text) != "" && Strip(Encoded(text)) == Encoded(text)
  {
    hide EncodeChar, Strip, Encoded;
    var n := |text| - 1;
    assert text == [text[0]] + text[1..] == text[..n] + [text[n]];
    EncodedAppend([text[0]], text[1..]);
    EncodedAppend(text[..n], [text[n]]);
    EncodedOne(text[0]);
    EncodedOne(text[n]);
    EncodedBytes(text[0]);
    EncodedBytes(text[n]);
    var s := Encoded(text);
    assert s[0] == EncodeChar(text[0])[0];
    assert s[|s| - 1] == EncodeChar(text[n])[|EncodeChar(text[n])| - 1];
    StripPad("", s, "");
    assert "" + s + "" == s;
  }

  lemma EncodedOne(c: CodePoint)
    ensures Encoded([c]) == EncodeChar(c)
  {
    assert [c][1..] == [];
  }

  /** A text as a child sends it: on a line of its own, or as the body of a block. */
  datatype Sent =
    | OnLine(lead: Bytes, text: Unicode, trail: Bytes)
    | InBlock(name: Bytes, others: seq<Bytes>, text: Unicode)

  function FrameOf(x: Sent): Frame {
    match x
    case OnLine(lead, text, trail) => LineFrame(lead, Encoded(text), trail)
    case InBlock(name, others, text) =>
      BlockFrame([LengthLine(name, |Encoded(text)|)] + others, "\r", Encoded(text))
  }

  function Frames(xs: seq<Sent>): seq<Frame> {
    seq(|xs|, i requires 0 <= i < |xs| => FrameOf(xs[i]))
  }

  // Any text that parses to the message; on a line it has no newline and no blank ends.
  predicate Says(json: JsonReader, x: Sent, m: Message) {
    json(Encoded(x.text)) == Object(m) &&
    match x
    case OnLine(lead, text, trail) => Padding(lead) && Padding(trail) && 10 !in text && Trimmed(text)
    case InBlock(name, others, _) => Lower(name) == LENGTH_KEY && OtherHeaders(others)
  }

  lemma SaysCarries(json: JsonReader, x: Sent, m: Message)
    requires Says(json, x, m)
    ensures Carries(json, FrameOf(x), m)
  {
    hide Encoded, Strip, OtherHeaders, Lower;
    EncodedIsValid(x.text);
    match x
    case OnLine(lead, text, trail) =>
      NewlineInText(text);
      TrimmedIsStripped(text);
      PaddingIsBlank(lead);
      PaddingIsBlank(trail);
    case InBlock(name, others, text) => StandardBlockCarries(json, name, others, Encoded(text), m);
  }

  lemma PaddingIsBlank(s: Bytes)
    requires Padding(s)
    ensures Blank(s) && '\n' !in s
  {
  }

  /** Every text gets through: whatever characters the messages are made of, in any mix of the two
      framings, they are read back in order, and then the stream is empty. */
  lemma EveryTextArrives(json: JsonReader, xs: seq<Sent>, ms: seq<Message>)
    requires |xs| == |ms| && forall i :: 0 <= i < |xs| ==> Says(json, xs[i], ms[i])
    ensures ReadAll(json, EncodeAll(Frames(xs))) == (ms, Took(Failed(ProcessExited), ""))
  {
    hide Says, FrameOf, Carries;
    forall i | 0 <= i < |xs|
      ensures Carries(json, Frames(xs)[i], ms[i])
    {
      SaysCarries(json, xs[i], ms[i]);
    }
    RoundTrip(json, Frames(xs), ms);
  }

  /** A line whose text would parse to a message is delivered if and only if it is the encoding of
      some text, and costs that line either way. */
  lemma LineArrivesIff(json: JsonReader, raw: Bytes, m: Message, rest: Bytes)
    requires '\n' !in raw && json(Strip(raw)) == Object(m)
    ensures NextMessage(json, raw + "\n" + rest)
            == Took(if exists text :: Encoded(text) == raw then Delivered(m) else Failed(UndecodableLine), rest)
  {
    hide Encoded, ValidUtf8, Strip, NextMessage;
    ValidIffEncoded(raw);
    if ValidUtf8(raw) {
      StripTwice(raw);
      StrippedObject(Strip(raw));
      ObjectLine(json, raw, m, rest);
    } else {
      BrokenLine(json, raw, rest);
    }
  }

  lemma StripTwice(raw: Bytes)
    ensures Strip(Strip(raw)) == Strip(raw)
  {
    hide Strip;
    var lead, trail := StripSplits(raw);
    StripPad("", Strip(raw), "");
    assert "" + Strip(raw) + "" == Strip(raw);
  }

  lemma BrokenLine(json: JsonReader, raw: Bytes, rest: Bytes)
    requires '\n' !in raw && !ValidUtf8(raw)
    ensures NextMessage(json, raw + "\n" + rest) == Took(Failed(UndecodableLine), rest)
  {
    LineIsFirst(raw, rest);
    NewlineStaysBroken(raw);
  }

  lemma {:induction false} NewlineStaysBroken(s: Bytes)
    requires !ValidUtf8(s)
    ensures !ValidUtf8(s + "\n")
    decreases |s|
  {
    hide FirstCodePoint;
    var k := CharLength(s);
    if k > 0 {
      CharLengthAppend(s, "\n");
      NewlineStaysBroken(s[k..]);
      assert (s + "\n")[k..] == s[k..] + "\n";
    } else {
      NewlineEndsNoCharacter(s);
    }
  }

  lemma NewlineEndsNoCharacter(s: Bytes)
    requires s != "" && CharLength(s) == 0
    ensures CharLength(s + "\n") == 0
  {
    var u := s + "\n";
    assert forall i :: 0 <= i < |s| ==> u[i] == s[i];
    assert u[|s|] == '\n';
  }
}
