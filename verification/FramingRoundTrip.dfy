/** Reading back what was framed: any mix of the two framings, message after message. */
module FramingRoundTrip {
  import opened Text
  import opened Framing

  /** A message on the wire: one padded line, or header lines, a blank line and a body.
      Lines are given without their final newline; a trailing carriage return is padding. */
  datatype Frame =
    | LineFrame(lead: Bytes, payload: Bytes, trail: Bytes)
    | BlockFrame(headers: seq<Bytes>, blank: Bytes, body: Bytes)

  function Lines(ls: seq<Bytes>): Bytes {
    if ls == [] then "" else ls[0] + "\n" + Lines(ls[1..])
  }

  function Encode(f: Frame): Bytes {
    match f
    case LineFrame(lead, payload, trail) => lead + payload + trail + "\n"
    case BlockFrame(headers, blank, body) => Lines(headers) + (blank + "\n" + body)
  }

  function EncodeAll(fs: seq<Frame>): Bytes {
    if fs == [] then "" else Encode(fs[0]) + EncodeAll(fs[1..])
  }

  predicate OneLine(raw: Bytes) {
    '\n' !in raw && ValidUtf8(raw)
  }

  predicate IsHeader(raw: Bytes) {
    OneLine(raw) && ':' in Strip(raw)
  }

  function HeaderKey(raw: Bytes): string
    requires IsHeader(raw)
  {
    Lower(Strip(raw)[..Find(Strip(raw), ':')])
  }

  function HeaderValue(raw: Bytes): string
    requires IsHeader(raw)
  {
    Strip(Strip(raw)[Find(Strip(raw), ':') + 1..])
  }

  predicate AllHeaders(hs: seq<Bytes>) {
    forall i :: 0 <= i < |hs| ==> IsHeader(hs[i])
  }

  // The header table of a block: a repeated name keeps its last value.
  function HeaderTable(hs: seq<Bytes>, start: map<string, string>): map<string, string>
    requires AllHeaders(hs)
  {
    if hs == [] then start
    else HeaderTable(hs[1..], start[HeaderKey(hs[0]) := HeaderValue(hs[0])])
  }

  predicate AnnouncesLength(hs: seq<Bytes>, n: nat) {
    AllHeaders(hs) &&
    var table := HeaderTable(hs, map[]);
    LENGTH_KEY in table && ParseInt(table[LENGTH_KEY]) == Some(n)
  }

  // A well-formed header block around a body that parses to m; header order is free.
  predicate CarriesInBlock(json: JsonReader, hs: seq<Bytes>, blank: Bytes, body: Bytes, m: Message) {
    && hs != [] && AnnouncesLength(hs, |body|)
    && '\n' !in blank && Blank(blank)
    && ValidUtf8(body) && json(body) == Object(m)
  }

  predicate Carries(json: JsonReader, f: Frame, m: Message) {
    match f
    case LineFrame(lead, payload, trail) =>
      && Blank(lead) && Blank(trail) && '\n' !in lead + trail && OneLine(payload)
      && Strip(payload) == payload && json(payload) == Object(m)
    case BlockFrame(headers, blank, body) =>
      CarriesInBlock(json, headers, blank, body, m) && StartsBlock(Strip(headers[0]))
  }

  // ---------- single lines ----------

  lemma LineIsFirst(raw: Bytes, rest: Bytes)
    requires '\n' !in raw
    ensures FirstLine(raw + "\n" + rest) == raw + "\n"
    ensures (raw + "\n" + rest)[|raw + "\n"|..] == rest
  {
    var s := raw + "\n" + rest;
    assert forall j :: 0 <= j < |raw| ==> s[j] == raw[j];
    FindAt(s, '\n', |raw|);
  }

  lemma LineText(raw: Bytes)
    requires ValidUtf8(raw)
    ensures ValidUtf8(raw + "\n") && Strip(raw + "\n") == Strip(raw)
  {
    hide Strip, ValidUtf8;
    AsciiUtf8("\n");
    Utf8Append(raw, "\n");
    var lead, trail := StripSplits(raw);
    StripPad(lead, Strip(raw), trail + "\n");
    assert raw + "\n" == lead + Strip(raw) + (trail + "\n");
  }

  // A read whose first line is `raw` depends on the stripped line and what follows it.
  lemma StepAtLine(json: JsonReader, raw: Bytes, rest: Bytes)
    requires OneLine(raw)
    ensures NextMessage(json, raw + "\n" + rest)
            == if StartsBlock(Strip(raw)) then ReadBlock(json, Strip(raw), rest)
               else Took(Load(json, Strip(raw)), rest)
  {
    LineIsFirst(raw, rest);
    LineText(raw);
  }

  lemma BlankText(raw: Bytes)
    requires Blank(raw)
    ensures Strip(raw) == "" && ValidUtf8(raw)
  {
    StripPad(raw, "", "");
    assert raw == raw + "" + "";
    AsciiUtf8(raw);
  }

  // ---------- a header block ----------

  function AfterFirst(hs: seq<Bytes>, blank: Bytes, tail: Bytes): Bytes
    requires hs != []
  {
    Lines(hs[1..]) + (blank + "\n" + tail)
  }

  // One header line is entered into the table and the next line is looked at.
  lemma HeaderStep(raw: Bytes, next: Bytes, more: Bytes, start: map<string, string>)
    requires IsHeader(raw) && OneLine(next)
    ensures ReadHeaders(Strip(raw), next + "\n" + more, start)
            == ReadHeaders(Strip(next), more, start[HeaderKey(raw) := HeaderValue(raw)])
  {
    LineIsFirst(next, more);
    LineText(next);
  }

  lemma AfterFirstIsLine(hs: seq<Bytes>, blank: Bytes, tail: Bytes)
    requires |hs| > 1
    ensures AfterFirst(hs, blank, tail) == hs[1] + "\n" + AfterFirst(hs[1..], blank, tail)
  {
  }

  // All header lines are entered into the table; the loop goes on with the line after them.
  lemma {:induction false} HeadersThenLine(hs: seq<Bytes>, line: Bytes, rest: Bytes, start: map<string, string>)
    requires hs != [] && AllHeaders(hs) && OneLine(line)
    ensures ReadHeaders(Strip(hs[0]), AfterFirst(hs, line, rest), start)
            == ReadHeaders(Strip(line), rest, HeaderTable(hs, start))
    decreases |hs|
  {
    hide ReadHeaders, HeaderKey, HeaderValue, Strip, ValidUtf8;
    assert IsHeader(hs[0]);
    var table := start[HeaderKey(hs[0]) := HeaderValue(hs[0])];
    if |hs| == 1 {
      HeaderStep(hs[0], line, rest, start);
      assert AfterFirst(hs, line, rest) == line + "\n" + rest;
      assert HeaderTable(hs[1..], table) == table;
    } else {
      assert IsHeader(hs[1]);
      AfterFirstIsLine(hs, line, rest);
      HeaderStep(hs[0], hs[1], AfterFirst(hs[1..], line, rest), start);
      HeadersThenLine(hs[1..], line, rest, table);
    }
  }

  lemma BlockHeaders(hs: seq<Bytes>, blank: Bytes, tail: Bytes, start: map<string, string>)
    requires hs != [] && AllHeaders(hs) && '\n' !in blank && Blank(blank)
    ensures ReadHeaders(Strip(hs[0]), AfterFirst(hs, blank, tail), start) == Headers(HeaderTable(hs, start), tail)
  {
    hide HeaderTable, AfterFirst;
    BlankText(blank);
    HeadersThenLine(hs, blank, tail, start);
  }

  lemma EncodedBlock(hs: seq<Bytes>, blank: Bytes, body: Bytes, rest: Bytes)
    requires hs != []
    ensures Encode(BlockFrame(hs, blank, body)) + rest == hs[0] + "\n" + AfterFirst(hs, blank, body + rest)
  {
  }

  lemma BlockStep(json: JsonReader, hs: seq<Bytes>, blank: Bytes, body: Bytes, m: Message, rest: Bytes)
    requires CarriesInBlock(json, hs, blank, body, m)
    ensures NextMessage(json, Encode(BlockFrame(hs, blank, body)) + rest)
            == if StartsBlock(Strip(hs[0])) then Took(Delivered(m), rest)
               else Took(Load(json, Strip(hs[0])), AfterFirst(hs, blank, body + rest))
  {
    hide NextMessage, ReadBlock, StartsBlock, Load, Encode;
    EncodedBlock(hs, blank, body, rest);
    assert IsHeader(hs[0]);
    StepAtLine(json, hs[0], AfterFirst(hs, blank, body + rest));
    BlockBody(json, hs, blank, body, m, rest);
  }

  lemma BlockBody(json: JsonReader, hs: seq<Bytes>, blank: Bytes, body: Bytes, m: Message, rest: Bytes)
    requires CarriesInBlock(json, hs, blank, body, m)
    ensures ReadBlock(json, Strip(hs[0]), AfterFirst(hs, blank, body + rest))
            == Took(Delivered(m), rest)
  {
    hide ReadHeaders, HeaderTable, Strip, ParseInt, AfterFirst, ValidUtf8;
    BlockHeaders(hs, blank, body + rest, map[]);
    assert (body + rest)[..|body|] == body && (body + rest)[|body|..] == rest;
  }

  /** The length header has to come first: the body of a well-formed block is read if and only if
      its first header is Content-Length, in any letter case. Otherwise that header line itself is
      taken for a JSON message, and the rest of the block is left in the stream. */
  lemma LengthHeaderMustComeFirst(
    json: JsonReader, hs: seq<Bytes>, blank: Bytes, body: Bytes, m: Message, rest: Bytes)
    requires CarriesInBlock(json, hs, blank, body, m)
    ensures NextMessage(json, Encode(BlockFrame(hs, blank, body)) + rest) == Took(Delivered(m), rest)
            <==> StartsBlock(Strip(hs[0]))
  {
    hide NextMessage, StartsBlock, Load, Strip;
    BlockStep(json, hs, blank, body, m, rest);
    assert |AfterFirst(hs, blank, body + rest)| > |rest|;
  }

  // ---------- one frame, then all of them ----------

  lemma PaddedLine(lead: Bytes, payload: Bytes, trail: Bytes)
    requires Blank(lead) && Blank(trail) && '\n' !in lead + trail && OneLine(payload)
    requires Strip(payload) == payload
    ensures OneLine(lead + payload + trail) && Strip(lead + payload + trail) == payload
  {
    AsciiUtf8(lead);
    AsciiUtf8(trail);
    Utf8Append(lead, payload);
    Utf8Append(lead + payload, trail);
    var l, t := StripSplits(payload);
    StripPad(lead, payload, trail);
  }

  lemma StrippedObject(payload: Bytes)
    requires Strip(payload) == payload && OpensObject(payload)
    ensures payload != "" && payload[0] == '{'
  {
    var lead, trail := StripSplits(payload);
    assert |lead| == 0;
  }

  lemma ObjectIsNoBlock(payload: Bytes)
    requires payload != "" && payload[0] == '{'
    ensures !StartsBlock(payload)
  {
    var low := Lower(payload);
    assert PREFIX[0] == 'c';
    assert |payload| >= |PREFIX| ==> low[..|PREFIX|][0] == low[0] == '{';
  }

  lemma LineStep(json: JsonReader, lead: Bytes, payload: Bytes, trail: Bytes, m: Message, rest: Bytes)
    requires Carries(json, LineFrame(lead, payload, trail), m)
    ensures NextMessage(json, Encode(LineFrame(lead, payload, trail)) + rest) == Took(Delivered(m), rest)
  {
    var raw := lead + payload + trail;
    PaddedLine(lead, payload, trail);
    StrippedObject(payload);
    ObjectLine(json, raw, m, rest);
    assert Encode(LineFrame(lead, payload, trail)) == raw + "\n";
  }

  lemma ObjectLine(json: JsonReader, raw: Bytes, m: Message, rest: Bytes)
    requires OneLine(raw) && json(Strip(raw)) == Object(m)
    requires Strip(raw) != "" && Strip(raw)[0] == '{'
    ensures NextMessage(json, raw + "\n" + rest) == Took(Delivered(m), rest)
  {
    ObjectIsNoBlock(Strip(raw));
    StepAtLine(json, raw, rest);
  }

  lemma FrameStep(json: JsonReader, f: Frame, m: Message, rest: Bytes)
    requires Carries(json, f, m)
    ensures NextMessage(json, Encode(f) + rest) == Took(Delivered(m), rest)
  {
    match f
    case LineFrame(lead, payload, trail) => LineStep(json, lead, payload, trail, m, rest);
    case BlockFrame(hs, blank, body) => BlockStep(json, hs, blank, body, m, rest);
  }

  // Read until something other than a message comes: the messages, and that last step.
  function ReadAll(json: JsonReader, s: Bytes): (r: (seq<Message>, Step))
    decreases |s|
  {
    NextMessageProgress(json, s);
    match NextMessage(json, s)
    case Took(Delivered(m), rest) =>
      var (ms, stop) := ReadAll(json, rest);
      ([m] + ms, stop)
    case other => ([], other)
  }

  ghost predicate CarriesAll(json: JsonReader, fs: seq<Frame>, ms: seq<Message>) {
    |fs| == |ms| && forall i :: 0 <= i < |fs| ==> Carries(json, fs[i], ms[i])
  }

  lemma ReadNothing(json: JsonReader)
    ensures ReadAll(json, "") == ([], Took(Failed(ProcessExited), ""))
  {
    NextMessageProgress(json, "");
  }

  lemma PrependFrame(json: JsonReader, f: Frame, m: Message, s: Bytes)
    requires Carries(json, f, m)
    ensures ReadAll(json, Encode(f) + s) == ([m] + ReadAll(json, s).0, ReadAll(json, s).1)
  {
    FrameStep(json, f, m, s);
    NextMessageProgress(json, Encode(f) + s);
  }

  /** Round trip: any sequence of messages, each in either framing with any padding, extra
      headers and header-name case, reads back as exactly that sequence, and then the stream is
      empty and the next read reports the end of the process. */
  lemma {:induction false} RoundTrip(json: JsonReader, fs: seq<Frame>, ms: seq<Message>)
    requires CarriesAll(json, fs, ms)
    ensures ReadAll(json, EncodeAll(fs)) == (ms, Took(Failed(ProcessExited), ""))
  {
    if fs == [] {
      ReadNothing(json);
    } else {
      RoundTrip(json, fs[1..], ms[1..]);
      PrependFrame(json, fs[0], ms[0], EncodeAll(fs[1..]));
      assert ms == [ms[0]] + ms[1..];
    }
  }

  lemma {:induction false} EncodeAllAppend(fs: seq<Frame>, gs: seq<Frame>)
    ensures EncodeAll(fs + gs) == EncodeAll(fs) + EncodeAll(gs)
  {
    if fs == [] {
      assert fs + gs == gs;
    } else {
      assert (fs + gs)[1..] == fs[1..] + gs;
      EncodeAllAppend(fs[1..], gs);
    }
  }

  // ---------- broken input ----------

  /** A line that is neither a message nor the start of a block costs exactly that line: the error
      is reported and the next read starts right after it. */
  lemma BadLineCostsOneLine(json: JsonReader, raw: Bytes, rest: Bytes)
    requires '\n' !in raw && (ValidUtf8(raw + "\n") ==> !StartsBlock(Strip(raw + "\n")))
    requires !json(Strip(raw + "\n")).Object?
    ensures NextMessage(json, raw + "\n" + rest)
            == Took(Failed(if !ValidUtf8(raw + "\n") then UndecodableLine
                           else if json(Strip(raw + "\n")) == NonObject then NotAnObject else InvalidPayload), rest)
  {
    LineIsFirst(raw, rest);
  }

  /** A body cut off by the end of the stream: the read fails and nothing is left to read. */
  lemma TruncatedBody(json: JsonReader, hs: seq<Bytes>, blank: Bytes, n: nat, part: Bytes)
    requires hs != [] && AnnouncesLength(hs, n) && StartsBlock(Strip(hs[0]))
    requires '\n' !in blank && Blank(blank) && |part| < n
    ensures NextMessage(json, Encode(BlockFrame(hs, blank, part))) == Took(Failed(InvalidPayload), "")
  {
    EncodedBlock(hs, blank, part, "");
    assert part + "" == part;
    assert Encode(BlockFrame(hs, blank, part)) + "" == Encode(BlockFrame(hs, blank, part));
    assert IsHeader(hs[0]);
    StepAtLine(json, hs[0], AfterFirst(hs, blank, part));
    BlockHeaders(hs, blank, part, map[]);
  }

  // A block as far as its header lines go: the first one opens it.
  predicate OpensBlock(hs: seq<Bytes>) {
    hs != [] && AllHeaders(hs) && StartsBlock(Strip(hs[0]))
  }

  lemma StepAtBlock(json: JsonReader, hs: seq<Bytes>, more: Bytes)
    requires OpensBlock(hs)
    ensures NextMessage(json, Lines(hs) + more) == ReadBlock(json, Strip(hs[0]), Lines(hs[1..]) + more)
  {
    hide ReadBlock, StartsBlock, Strip, NextMessage, Lines;
    assert IsHeader(hs[0]);
    LinesFirst(hs, more);
    StepAtLine(json, hs[0], Lines(hs[1..]) + more);
  }

  lemma LinesFirst(hs: seq<Bytes>, more: Bytes)
    requires hs != []
    ensures Lines(hs) + more == hs[0] + "\n" + (Lines(hs[1..]) + more)
  {
  }

  /** A line without a colon among the headers: it is taken too, whatever it is, and the next read
      starts right after it. */
  lemma BlockMeetsBadHeader(json: JsonReader, hs: seq<Bytes>, line: Bytes, rest: Bytes)
    requires OpensBlock(hs) && OneLine(line) && Strip(line) != "" && ':' !in Strip(line)
    ensures NextMessage(json, Lines(hs) + (line + "\n" + rest)) == Took(Failed(MalformedHeader), rest)
  {
    hide HeaderTable, NextMessage, StartsBlock, Strip, AllHeaders;
    StepAtBlock(json, hs, line + "\n" + rest);
    HeadersThenLine(hs, line, rest, map[]);
  }

  lemma LinesLast(hs: seq<Bytes>, more: Bytes)
    requires |hs| > 1
    ensures Lines(hs[1..]) + more == AfterFirst(hs[..|hs| - 1], hs[|hs| - 1], more)
  {
    LinesSnoc(hs[1..]);
    assert hs[1..][..|hs| - 2] == hs[..|hs| - 1][1..];
  }

  lemma {:induction false} LinesSnoc(ls: seq<Bytes>)
    requires ls != []
    ensures Lines(ls) == Lines(ls[..|ls| - 1]) + (ls[|ls| - 1] + "\n")
  {
    if |ls| > 1 {
      LinesSnoc(ls[1..]);
      assert ls[1..][..|ls| - 2] == ls[..|ls| - 1][1..];
    }
  }

  // The header loop at the last header line of a block.
  lemma AtLastHeader(hs: seq<Bytes>, more: Bytes) returns (table: map<string, string>)
    requires hs != [] && AllHeaders(hs)
    ensures ReadHeaders(Strip(hs[0]), Lines(hs[1..]) + more, map[]) == ReadHeaders(Strip(hs[|hs| - 1]), more, table)
  {
    hide ReadHeaders, Strip, HeaderTable;
    if |hs| == 1 {
      table := map[];
      assert Lines(hs[1..]) + more == more;
    } else {
      var init := hs[..|hs| - 1];
      assert forall i :: 0 <= i < |init| ==> IsHeader(hs[i]);
      assert IsHeader(hs[|hs| - 1]);
      LinesLast(hs, more);
      HeadersThenLine(init, hs[|hs| - 1], more, map[]);
      table := HeaderTable(init, map[]);
    }
  }

  /** A line that is no UTF-8 among the headers is taken too. */
  lemma BlockMeetsUndecodable(json: JsonReader, hs: seq<Bytes>, line: Bytes, rest: Bytes)
    requires OpensBlock(hs) && '\n' !in line && !ValidUtf8(line + "\n")
    ensures NextMessage(json, Lines(hs) + (line + "\n" + rest)) == Took(Failed(UndecodableHeader), rest)
  {
    hide NextMessage, StartsBlock, ValidUtf8;
    StepAtBlock(json, hs, line + "\n" + rest);
    var table := AtLastHeader(hs, line + "\n" + rest);
    assert IsHeader(hs[|hs| - 1]);
    LineIsFirst(line, rest);
  }

  /** A block whose headers never end: every line of the stream is taken as a header, and nothing is
      left. */
  lemma BlockNeverEnds(json: JsonReader, hs: seq<Bytes>)
    requires OpensBlock(hs)
    ensures NextMessage(json, Lines(hs)) == Took(Failed(ProcessExited), "")
  {
    hide NextMessage, StartsBlock;
    assert Lines(hs) + "" == Lines(hs);
    StepAtBlock(json, hs, "");
    var table := AtLastHeader(hs, "");
    assert IsHeader(hs[|hs| - 1]);
  }

  /** A length that is no number costs the headers and the blank line; the body stays. */
  lemma BlockBadLength(json: JsonReader, hs: seq<Bytes>, blank: Bytes, rest: Bytes)
    requires OpensBlock(hs) && '\n' !in blank && Blank(blank)
    requires LENGTH_KEY in HeaderTable(hs, map[]) ==> ParseInt(HeaderTable(hs, map[])[LENGTH_KEY]) == None
    ensures LENGTH_KEY in HeaderTable(hs, map[])
    ensures NextMessage(json, Lines(hs) + (blank + "\n" + rest)) == Took(Failed(InvalidPayload), rest)
  {
    hide HeaderTable, NextMessage, StartsBlock, Strip, AllHeaders, ParseInt;
    StepAtBlock(json, hs, blank + "\n" + rest);
    BlockHeaders(hs, blank, rest, map[]);
    HeadersKeepLength(Strip(hs[0]), AfterFirst(hs, blank, rest), map[]);
  }

  /** A body that is no object, or no UTF-8, costs the block and exactly its announced length,
      whatever those bytes were meant to be. */
  lemma BlockBadBody(json: JsonReader, hs: seq<Bytes>, blank: Bytes, body: Bytes, rest: Bytes)
    requires OpensBlock(hs) && AnnouncesLength(hs, |body|) && '\n' !in blank && Blank(blank)
    requires LoadBody(json, body).Failed?
    ensures NextMessage(json, Lines(hs) + (blank + "\n" + (body + rest))) == Took(LoadBody(json, body), rest)
  {
    hide HeaderTable, NextMessage, StartsBlock, Strip, AllHeaders, ParseInt, LoadBody;
    StepAtBlock(json, hs, blank + "\n" + (body + rest));
    BlockHeaders(hs, blank, body + rest, map[]);
    assert (body + rest)[..|body|] == body && (body + rest)[|body|..] == rest;
  }

  /** The last line of the stream is read as a message even without its newline. */
  lemma UnterminatedLastLine(json: JsonReader, lead: Bytes, payload: Bytes, trail: Bytes, m: Message)
    requires Carries(json, LineFrame(lead, payload, trail), m)
    ensures NextMessage(json, lead + payload + trail) == Took(Delivered(m), "")
  {
    var raw := lead + payload + trail;
    PaddedLine(lead, payload, trail);
    StrippedObject(payload);
    ObjectIsNoBlock(payload);
    assert FirstLine(raw) == raw;
    assert raw[|raw|..] == "";
    assert raw != "";
  }

  // ---------- the usual frames are covered ----------

  predicate OtherHeaders(hs: seq<Bytes>) {
    AllHeaders(hs) && forall i :: 0 <= i < |hs| ==> HeaderKey(hs[i]) != LENGTH_KEY
  }

  lemma {:induction false} OthersKeepLength(hs: seq<Bytes>, start: map<string, string>)
    requires OtherHeaders(hs) && LENGTH_KEY in start
    ensures LENGTH_KEY in HeaderTable(hs, start) && HeaderTable(hs, start)[LENGTH_KEY] == start[LENGTH_KEY]
  {
    if hs != [] {
      OthersKeepLength(hs[1..], start[HeaderKey(hs[0]) := HeaderValue(hs[0])]);
    }
  }

  lemma LengthPrefix(name: Bytes, tail: Bytes)
    requires Lower(name) == LENGTH_KEY
    ensures Find(name + ":" + tail, ':') == |name| && StartsBlock(name + ":" + tail)
  {
    var core := name + ":" + tail;
    assert |name| == |LENGTH_KEY|;
    assert forall i :: 0 <= i < |name| ==> LowerChar(name[i]) == LENGTH_KEY[i];
    assert Lower(core)[..|PREFIX|] == PREFIX by {
      assert forall i :: 0 <= i < |name| ==> core[i] == name[i] && PREFIX[i] == LENGTH_KEY[i];
      assert core[|name|] == ':' && PREFIX[|name|] == ':' && LowerChar(':') == ':';
    }
    BlockKey(core);
  }

  lemma LengthName(name: Bytes)
    requires Lower(name) == LENGTH_KEY
    ensures name != "" && !IsSpace(name[0]) && Ascii(name) && '\n' !in name
  {
    assert forall i :: 0 <= i < |name| ==> LowerChar(name[i]) == LENGTH_KEY[i];
    assert forall i :: 0 <= i < |LENGTH_KEY| ==> LENGTH_KEY[i] == '-' || 'a' <= LENGTH_KEY[i] <= 'z';
  }

  lemma LengthText(name: Bytes, digits: Bytes)
    requires name != "" && !IsSpace(name[0]) && Ascii(name) && '\n' !in name
    requires digits != "" && forall i :: 0 <= i < |digits| ==> IsDigit(digits[i])
    ensures Strip(name + ": " + digits + "\r") == name + ":" + (" " + digits)
    ensures OneLine(name + ": " + digits + "\r")
  {
    var core := name + ":" + (" " + digits);
    var raw := name + ": " + digits + "\r";
    assert raw == "" + core + "\r";
    assert core[0] == name[0] && core[|core| - 1] == digits[|digits| - 1];
    StripPad("", core, "\r");
    assert Ascii(digits);
    assert Ascii(raw);
    AsciiUtf8(raw);
  }

  function LengthLine(name: Bytes, n: nat): Bytes {
    name + ": " + NatText(n) + "\r"
  }

  lemma LengthHeader(name: Bytes, n: nat)
    requires Lower(name) == LENGTH_KEY
    ensures var raw := LengthLine(name, n);
            && IsHeader(raw) && StartsBlock(Strip(raw))
            && HeaderKey(raw) == LENGTH_KEY && HeaderValue(raw) == NatText(n)
  {
    var core := name + ":" + (" " + NatText(n));
    LengthName(name);
    LengthText(name, NatText(n));
    LengthPrefix(name, " " + NatText(n));
    assert core[..|name|] == name && core[|name| + 1..] == " " + NatText(n) + "";
    assert Blank(" ") && Blank("");
    StripPad(" ", NatText(n), "");
    assert core[|name|] == ':';
  }

  lemma StandardTable(first: Bytes, others: seq<Bytes>, n: nat)
    requires IsHeader(first) && HeaderKey(first) == LENGTH_KEY && HeaderValue(first) == NatText(n)
    requires OtherHeaders(others)
    ensures AnnouncesLength([first] + others, n)
  {
    var hs := [first] + others;
    ParseDecimal(n);
    assert hs[1..] == others;
    OthersKeepLength(others, map[][HeaderKey(first) := HeaderValue(first)]);
  }

  /** A standard block is a frame for every body: the length header in any letter case with the
      decimal body length, carriage returns, and any other headers after it. */
  lemma StandardBlockCarries(json: JsonReader, name: Bytes, others: seq<Bytes>, body: Bytes, m: Message)
    requires Lower(name) == LENGTH_KEY && OtherHeaders(others)
    requires ValidUtf8(body) && json(body) == Object(m)
    ensures Carries(json, BlockFrame([LengthLine(name, |body|)] + others, "\r", body), m)
  {
    hide IsHeader, HeaderKey, HeaderValue, StartsBlock, Strip, LengthLine, Carries, OtherHeaders;
    LengthHeader(name, |body|);
    BlockCarries(json, LengthLine(name, |body|), others, body, m);
  }

  lemma BlockCarries(json: JsonReader, first: Bytes, others: seq<Bytes>, body: Bytes, m: Message)
    requires IsHeader(first) && HeaderKey(first) == LENGTH_KEY && HeaderValue(first) == NatText(|body|)
    requires StartsBlock(Strip(first)) && OtherHeaders(others)
    requires ValidUtf8(body) && json(body) == Object(m)
    ensures Carries(json, BlockFrame([first] + others, "\r", body), m)
  {
    hide IsHeader, HeaderKey, HeaderValue, StartsBlock, OtherHeaders, AnnouncesLength, ValidUtf8, Strip;
    StandardTable(first, others, |body|);
    ReturnIsBlank();
  }

  lemma ReturnIsBlank()
    ensures Blank("\r") && '\n' !in "\r"
  {
  }

  // ---------- a block whose length header comes second ----------

  // A header and then the length header: a well-formed block for the body.
  lemma LengthSecond(json: JsonReader, other: Bytes, line: Bytes, body: Bytes, m: Message)
    requires IsHeader(other) && IsHeader(line) && HeaderKey(line) == LENGTH_KEY && HeaderValue(line) == NatText(|body|)
    requires ValidUtf8(body) && json(body) == Object(m)
    ensures CarriesInBlock(json, [other, line], "\r", body, m)
  {
    hide IsHeader, HeaderKey, HeaderValue, ParseInt, ValidUtf8;
    SecondHeaderWins(other, line);
    ParseDecimal(|body|);
    ReturnIsBlank();
  }

  lemma SecondHeaderWins(other: Bytes, line: Bytes)
    requires IsHeader(other) && IsHeader(line)
    ensures AllHeaders([other, line])
    ensures HeaderTable([other, line], map[])
            == map[HeaderKey(other) := HeaderValue(other)][HeaderKey(line) := HeaderValue(line)]
  {
    hide IsHeader, HeaderKey, HeaderValue;
    var hs := [other, line];
    assert hs[1..] == [line] && [line][1..] == [];
    assert HeaderTable([line][1..], map[HeaderKey(other) := HeaderValue(other)][HeaderKey(line) := HeaderValue(line)])
           == map[HeaderKey(other) := HeaderValue(other)][HeaderKey(line) := HeaderValue(line)];
  }

  // Content-Type, and the length header as it is usually spelled.
  function ContentType(): Bytes { "Content-Type: x" }

  function ContentLength(n: nat): Bytes { LengthLine("Content-Length", n) }

  lemma PlainHeader(s: Bytes)
    requires s != "" && !IsSpace(s[0]) && !IsSpace(s[|s| - 1]) && Ascii(s) && '\n' !in s && ':' in s
    ensures IsHeader(s) && Strip(s) == s
  {
    hide Strip;
    AsciiUtf8(s);
    assert "" + s + "" == s;
    StripPad("", s, "");
  }

  lemma OtherName(s: Bytes)
    requires |s| > 8 && s[8] == 'T'
    ensures !StartsBlock(s)
  {
    assert Lower(s)[8] == 't' && PREFIX[8] == 'l';
    assert |s| >= |PREFIX| ==> Lower(s)[..|PREFIX|][8] == 't';
  }

  lemma ContentTypeHeader()
    ensures IsHeader(ContentType()) && !StartsBlock(Strip(ContentType()))
  {
    hide IsHeader, Strip, StartsBlock;
    var s := ContentType();
    assert s[8] == 'T' && s[12] == ':';
    PlainHeader(s);
    OtherName(s);
  }

  lemma ContentLengthHeader(n: nat)
    ensures IsHeader(ContentLength(n)) && HeaderKey(ContentLength(n)) == LENGTH_KEY
    ensures HeaderValue(ContentLength(n)) == NatText(n)
  {
    hide IsHeader, HeaderKey, HeaderValue, StartsBlock, Strip, LengthLine;
    assert Lower("Content-Length") == LENGTH_KEY;
    LengthHeader("Content-Length", n);
  }

  /** Content-Type before Content-Length: the block is well formed, and its body is not read. */
  lemma ContentTypeFirst(json: JsonReader, body: Bytes, m: Message, rest: Bytes)
    requires ValidUtf8(body) && json(body) == Object(m)
    ensures var hs := [ContentType(), ContentLength(|body|)];
            && CarriesInBlock(json, hs, "\r", body, m)
            && NextMessage(json, Encode(BlockFrame(hs, "\r", body)) + rest) != Took(Delivered(m), rest)
  {
    hide *;
    ContentTypeHeader();
    ContentLengthHeader(|body|);
    LengthSecond(json, ContentType(), ContentLength(|body|), body, m);
    LengthHeaderMustComeFirst(json, [ContentType(), ContentLength(|body|)], "\r", body, m, rest);
  }
}
