/** The two framings that share the MCP child's stdout, as functions of the byte stream:
    newline-delimited JSON (MCP 2024-11-05, Transports, stdio) and a Content-Length header
    block followed by a body (LSP base protocol, Header Part). */
module Framing {
  import opened Text

  type Bytes = string

  // ---------- messages ----------

  // The "id" member of a JSON-RPC message. Python compares it with ==, so 1, 1.0 and true agree.
  datatype JsonId = NoId | IntId(n: int) | FloatId(x: real) | BoolId(b: bool) | TextId(s: string)

  datatype Member = Absent | NonObjectMember | ObjectMember(text: string)

  datatype Message = Message(id: JsonId, error: Member, result: Member)

  predicate Answers(m: Message, request: int) {
    match m.id
    case NoId => false
    case IntId(n) => n == request
    case FloatId(x) => x == request as real
    case BoolId(b) => (if b then 1 else 0) == request
    case TextId(_) => false
  }

  // What json.loads makes of a text. A text that parses to an object opens with a brace.
  datatype Parsed = Invalid | NonObject | Object(message: Message)

  predicate OpensObject(text: Bytes) {
    var s := LStrip(text);
    s != "" && s[0] == '{'
  }

  type JsonReader = f: Bytes -> Parsed | forall t :: f(t).Object? ==> OpensObject(t)
    witness (t: Bytes) => Invalid

  // ---------- UTF-8 ----------

  predicate Within(c: char, lo: int, hi: int) {
    lo <= c as int <= hi
  }

  // The number of bytes of the first character, or 0 when no character starts here.
  function CharLength(s: Bytes): (k: nat)
    requires s != ""
    ensures k <= |s| && k <= 4
  {
    if Within(s[0], 0, 0x7F) then 1
    else if Within(s[0], 0xC2, 0xDF) then
      if |s| >= 2 && Within(s[1], 0x80, 0xBF) then 2 else 0
    else if Within(s[0], 0xE0, 0xEF) then
      if && |s| >= 3
         && Within(s[1], if s[0] as int == 0xE0 then 0xA0 else 0x80, if s[0] as int == 0xED then 0x9F else 0xBF)
         && Within(s[2], 0x80, 0xBF)
      then 3 else 0
    else
      if && Within(s[0], 0xF0, 0xF4) && |s| >= 4
         && Within(s[1], if s[0] as int == 0xF0 then 0x90 else 0x80, if s[0] as int == 0xF4 then 0x8F else 0xBF)
         && Within(s[2], 0x80, 0xBF) && Within(s[3], 0x80, 0xBF)
      then 4 else 0
  }

  // Well-formed UTF-8, as bytes.decode("utf-8") checks it.
  predicate ValidUtf8(s: Bytes) {
    s == "" || (CharLength(s) > 0 && ValidUtf8(s[CharLength(s)..]))
  }

  predicate Ascii(s: Bytes) {
    forall i :: 0 <= i < |s| ==> s[i] as int <= 0x7F
  }

  lemma {:induction false} AsciiUtf8(s: Bytes)
    requires Ascii(s)
    ensures ValidUtf8(s)
  {
    if s != "" {
      AsciiUtf8(s[1..]);
    }
  }

  lemma {:induction false} Utf8Append(s: Bytes, t: Bytes)
    requires ValidUtf8(s)
    ensures ValidUtf8(s + t) <==> ValidUtf8(t)
    decreases |s|
  {
    if s == "" {
      assert s + t == t;
    } else {
      var k := CharLength(s);
      CharLengthAppend(s, t);
      Utf8Append(s[k..], t);
      assert (s + t)[k..] == s[k..] + t;
    }
  }

  lemma CharLengthAppend(s: Bytes, t: Bytes)
    requires s != "" && CharLength(s) > 0
    ensures CharLength(s + t) == CharLength(s)
  {
    var u := s + t;
    assert forall i :: 0 <= i < |s| ==> u[i] == s[i];
  }

  // ---------- int() on a stripped header value ----------

  // Decimal digits with single underscores between digits.
  function ParseDigits(s: string): Option<nat> {
    if s == "" || !IsDigit(s[|s| - 1]) then None
    else if |s| == 1 then Some(DigitValue(s[0]))
    else
      var init := if s[|s| - 2] == '_' then s[..|s| - 2] else s[..|s| - 1];
      match ParseDigits(init)
      case None => None
      case Some(n) => Some(10 * n + DigitValue(s[|s| - 1]))
  }

  function ParseInt(s: string): Option<int> {
    if s != "" && (s[0] == '-' || s[0] == '+') then
      match ParseDigits(s[1..])
      case None => None
      case Some(n) => if s[0] == '-' then Some(-(n as int)) else Some(n as int)
    else
      match ParseDigits(s)
      case None => None
      case Some(n) => Some(n as int)
  }

  lemma {:induction false} ParseDecimal(n: nat)
    ensures ParseDigits(NatText(n)) == Some(n)
    ensures ParseInt(NatText(n)) == Some(n)
  {
    if n >= 10 {
      ParseDecimal(n / 10);
      var init := NatText(n / 10);
      assert NatText(n)[..|NatText(n)| - 1] == init;
      assert IsDigit(init[|init| - 1]);
      assert NatText(n)[|NatText(n)| - 2] == init[|init| - 1];
    }
  }

  // Digits, with underscores between digits only.
  predicate Grouped(s: string) {
    s != "" && forall i :: 0 <= i < |s| ==> IsDigit(s[i]) || (s[i] == '_' && BetweenDigits(s, i))
  }

  lemma {:induction false} ParseDigitsIff(s: string)
    ensures Grouped(s) ==> AllDigits(NoUnderscores(s))
    ensures ParseDigits(s) == if Grouped(s) then Some(DigitsValue(NoUnderscores(s))) else None
  {
    hide NoUnderscores, DigitsValue;
    var n := |s|;
    if n == 0 || !IsDigit(s[n - 1]) {
    } else if n == 1 {
      OneDigit(s[0]);
      assert s == [s[0]];
    } else {
      var init := if s[n - 2] == '_' then s[..n - 2] else s[..n - 1];
      LastOfGroups(s);
      LastDigit(s, init);
      ParseDigitsIff(init);
    }
  }

  lemma LastDigit(s: string, init: string)
    requires |s| >= 2 && IsDigit(s[|s| - 1]) && init == if s[|s| - 2] == '_' then s[..|s| - 2] else s[..|s| - 1]
    ensures NoUnderscores(s) == NoUnderscores(init) + [s[|s| - 1]]
    ensures AllDigits(NoUnderscores(init)) ==>
              && AllDigits(NoUnderscores(s))
              && DigitsValue(NoUnderscores(s)) == 10 * DigitsValue(NoUnderscores(init)) + DigitValue(s[|s| - 1])
  {
    var n := |s|;
    assert s[..n - 1][..n - 2] == s[..n - 2];
    assert (NoUnderscores(init) + [s[n - 1]])[..|NoUnderscores(init)|] == NoUnderscores(init);
  }

  lemma OneDigit(c: char)
    requires IsDigit(c)
    ensures NoUnderscores([c]) == [c] && AllDigits([c]) && DigitsValue([c]) == DigitValue(c)
  {
    var s: string := [c];
    assert s[..|s| - 1] == "";
  }

  lemma LastOfGroups(s: string)
    requires |s| >= 2 && IsDigit(s[|s| - 1])
    ensures Grouped(s) <==> Grouped(if s[|s| - 2] == '_' then s[..|s| - 2] else s[..|s| - 1])
  {
    var n := |s|;
    var init := if s[n - 2] == '_' then s[..n - 2] else s[..n - 1];
    if Grouped(s) {
      assert s[n - 2] == '_' ==> IsDigit(s[n - 3]);
      forall i | 0 <= i < |init|
        ensures IsDigit(init[i]) || (init[i] == '_' && BetweenDigits(init, i))
      {
        assert init[i] == s[i];
      }
    }
    if Grouped(init) {
      assert IsDigit(init[|init| - 1]);
      forall i | 0 <= i < n
        ensures IsDigit(s[i]) || (s[i] == '_' && BetweenDigits(s, i))
      {
        if i < |init| {
          assert init[i] == s[i];
        }
      }
    }
  }

  /** A header value is a length if and only if it is a sign or none and digits in groups, and then it
      is the number these digits are. */
  lemma ParseIntIff(s: string)
    ensures var digits := if HasSign(s) then s[1..] else s;
            && (Grouped(digits) ==> AllDigits(NoUnderscores(digits)))
            && ParseInt(s) == if !Grouped(digits) then None
                              else if HasSign(s) && s[0] == '-' then Some(-(DigitsValue(NoUnderscores(digits)) as int))
                              else Some(DigitsValue(NoUnderscores(digits)))
  {
    hide ParseDigits, Grouped, NoUnderscores, DigitsValue;
    ParseDigitsIff(if HasSign(s) then s[1..] else s);
  }

  // ---------- one read of a message, as a function of the stream ----------

  // Up to and including the first newline; the whole stream when there is none.
  function FirstLine(s: Bytes): (line: Bytes)
    ensures |line| <= |s| && line == s[..|line|]
    ensures line == "" <==> s == ""
  {
    var i := Find(s, '\n');
    if i < 0 then s else s[..i + 1]
  }

  datatype ReadError =
    | NotConnected
    | ProcessExited
    | UndecodableLine
    | UndecodableHeader
    | MalformedHeader
    | MissingLength
    | InvalidPayload
    | NotAnObject

  datatype Reading =
    | Delivered(message: Message)
    | Failed(error: ReadError)

  const PREFIX := "content-length:"
  const LENGTH_KEY := "content-length"

  predicate StartsBlock(stripped: string) {
    |stripped| >= |PREFIX| && Lower(stripped)[..|PREFIX|] == PREFIX
  }

  datatype HeaderRead =
    | Headers(headers: map<string, string>, rest: Bytes)
    | HeaderFailure(error: ReadError, rest: Bytes)

  // The header loop: `line` is the current stripped line, `s` the bytes after it.
  function ReadHeaders(line: string, s: Bytes, headers: map<string, string>): HeaderRead
    decreases |s|
  {
    if line == "" then Headers(headers, s)
    else
      var colon := Find(line, ':');
      if colon < 0 then HeaderFailure(MalformedHeader, s)
      else
        var headers' := headers[Lower(line[..colon]) := Strip(line[colon + 1..])];
        var next := FirstLine(s);
        if next == "" then HeaderFailure(ProcessExited, s)
        else if !ValidUtf8(next) then HeaderFailure(UndecodableHeader, s[|next|..])
        else ReadHeaders(Strip(next), s[|next|..], headers')
  }

  function Load(json: JsonReader, text: Bytes): Reading {
    match json(text)
    case Invalid => Failed(InvalidPayload)
    case NonObject => Failed(NotAnObject)
    case Object(m) => Delivered(m)
  }

  function LoadBody(json: JsonReader, body: Bytes): Reading {
    if ValidUtf8(body) then Load(json, body) else Failed(InvalidPayload)
  }

  // What one read takes off the stream. A negative Content-Length is its own case: what the
  // code then takes depends on how much of the stream happens to be buffered.
  datatype Step =
    | Took(reading: Reading, rest: Bytes)
    | Negative(length: int, rest: Bytes)

  function NextMessage(json: JsonReader, s: Bytes): Step {
    var line := FirstLine(s);
    var s1 := s[|line|..];
    if line == "" then Took(Failed(ProcessExited), s)
    else if !ValidUtf8(line) then Took(Failed(UndecodableLine), s1)
    else if !StartsBlock(Strip(line)) then Took(Load(json, Strip(line)), s1)
    else ReadBlock(json, Strip(line), s1)
  }

  function ReadBlock(json: JsonReader, line: string, s: Bytes): Step {
    match ReadHeaders(line, s, map[])
    case HeaderFailure(e, rest) => Took(Failed(e), rest)
    case Headers(headers, rest) => TakeBody(json, headers, rest)
  }

  function TakeBody(json: JsonReader, headers: map<string, string>, s: Bytes): Step {
    if LENGTH_KEY !in headers then Took(Failed(MissingLength), s)
    else
      match ParseInt(headers[LENGTH_KEY])
      case None => Took(Failed(InvalidPayload), s)
      case Some(n) =>
        if n < 0 then Negative(n, s)
        else if n > |s| then Took(Failed(InvalidPayload), "")
        else Took(LoadBody(json, s[..n]), s[n..])
  }

  // ---------- what a read may leave behind ----------

  ghost predicate IsSuffix(t: Bytes, s: Bytes) {
    |t| <= |s| && s[|s| - |t|..] == t
  }

  lemma SuffixTrans(a: Bytes, b: Bytes, c: Bytes)
    requires IsSuffix(a, b) && IsSuffix(b, c)
    ensures IsSuffix(a, c)
  {
    assert c[|c| - |a|..] == c[|c| - |b|..][|b| - |a|..];
  }

  lemma {:induction false} HeadersLeaveSuffix(line: string, s: Bytes, headers: map<string, string>)
    ensures IsSuffix(ReadHeaders(line, s, headers).rest, s)
    decreases |s|
  {
    var colon := Find(line, ':');
    var next := FirstLine(s);
    if line != "" && colon >= 0 && next != "" && ValidUtf8(next) {
      var headers' := headers[Lower(line[..colon]) := Strip(line[colon + 1..])];
      HeadersLeaveSuffix(Strip(next), s[|next|..], headers');
      SuffixTrans(ReadHeaders(line, s, headers).rest, s[|next|..], s);
    }
  }

  // The first line of a block always sets the length key, so that key cannot be missing.
  lemma {:induction false} HeadersKeepLength(line: string, s: Bytes, headers: map<string, string>)
    requires StartsBlock(line) || LENGTH_KEY in headers
    requires ReadHeaders(line, s, headers).Headers?
    ensures LENGTH_KEY in ReadHeaders(line, s, headers).headers
    decreases |s|
  {
    if line != "" {
      var colon := Find(line, ':');
      var next := FirstLine(s);
      var headers' := headers[Lower(line[..colon]) := Strip(line[colon + 1..])];
      if StartsBlock(line) {
        BlockKey(line);
      }
      HeadersKeepLength(Strip(next), s[|next|..], headers');
    }
  }

  lemma BlockKey(line: string)
    requires StartsBlock(line)
    ensures Find(line, ':') == |LENGTH_KEY| && Lower(line[..|LENGTH_KEY|]) == LENGTH_KEY
  {
    var low := Lower(line);
    assert forall i :: 0 <= i < |PREFIX| ==> low[i] == low[..|PREFIX|][i] == PREFIX[i];
    assert PREFIX[|LENGTH_KEY|] == ':';
    assert LowerChar(line[|LENGTH_KEY|]) == ':';
    assert line[|LENGTH_KEY|] == ':';
    forall i | 0 <= i < |LENGTH_KEY|
      ensures line[i] != ':' && LowerChar(line[i]) == LENGTH_KEY[i]
    {
      assert LowerChar(line[i]) == PREFIX[i] == LENGTH_KEY[i];
    }
    assert line[..|LENGTH_KEY|] + [':'] == line[..|LENGTH_KEY| + 1];
    FindAt(line, ':', |LENGTH_KEY|);
  }

  // Every read of a non-empty stream consumes at least its first line and leaves a suffix:
  // nothing is lost in the middle, duplicated or reordered.
  lemma NextMessageProgress(json: JsonReader, s: Bytes)
    ensures IsSuffix(NextMessage(json, s).rest, s)
    ensures s != "" ==> |NextMessage(json, s).rest| < |s|
    ensures s == "" ==> NextMessage(json, s) == Took(Failed(ProcessExited), "")
  {
    var line := FirstLine(s);
    var s1 := s[|line|..];
    if line != "" && ValidUtf8(line) && StartsBlock(Strip(line)) {
      BlockLeavesSuffix(json, Strip(line), s1);
      SuffixTrans(NextMessage(json, s).rest, s1, s);
    }
  }

  lemma BlockLeavesSuffix(json: JsonReader, line: string, s: Bytes)
    ensures IsSuffix(ReadBlock(json, line, s).rest, s)
  {
    hide ReadHeaders, ValidUtf8, ParseInt;
    HeadersLeaveSuffix(line, s, map[]);
    var h := ReadHeaders(line, s, map[]);
    if h.Headers? {
      var t := TakeBody(json, h.headers, h.rest).rest;
      assert IsSuffix(t, h.rest);
      SuffixTrans(t, h.rest, s);
    }
  }

  /** The error for an absent Content-Length is never raised: a block is only entered on a
      Content-Length line, which sets that header before any other line is read. */
  lemma MissingLengthUnreachable(json: JsonReader, s: Bytes)
    ensures var step := NextMessage(json, s);
            step.Took? ==> step.reading != Failed(MissingLength)
  {
    var line := FirstLine(s);
    var s1 := s[|line|..];
    if line != "" && ValidUtf8(line) && StartsBlock(Strip(line)) {
      BlockHasLength(json, Strip(line), s1);
    }
  }

  lemma BlockHasLength(json: JsonReader, line: string, s: Bytes)
    requires StartsBlock(line)
    ensures var step := ReadBlock(json, line, s);
            step.Took? ==> step.reading != Failed(MissingLength)
  {
    var h := ReadHeaders(line, s, map[]);
    if h.Headers? {
      HeadersKeepLength(line, s, map[]);
      BodyHasLength(json, h.headers, h.rest);
    } else {
      HeaderErrors(line, s, map[]);
    }
  }

  lemma BodyHasLength(json: JsonReader, headers: map<string, string>, s: Bytes)
    requires LENGTH_KEY in headers
    ensures var step := TakeBody(json, headers, s);
            step.Took? ==> step.reading != Failed(MissingLength)
  {
  }

  lemma {:induction false} HeaderErrors(line: string, s: Bytes, headers: map<string, string>)
    requires ReadHeaders(line, s, headers).HeaderFailure?
    ensures ReadHeaders(line, s, headers).error != MissingLength
    decreases |s|
  {
    hide FirstLine, Strip, Lower, ValidUtf8;
    var colon := Find(line, ':');
    var next := FirstLine(s);
    if colon >= 0 && next != "" && ValidUtf8(next) {
      HeaderErrors(Strip(next), s[|next|..], headers[Lower(line[..colon]) := Strip(line[colon + 1..])]);
    }
  }
}
