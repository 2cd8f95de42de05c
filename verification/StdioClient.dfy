/** The MCP child process seen through its pipes, and the buffered client that talks to it. */
module StdioClient {
  import opened Text
  import opened Framing
  import JsonTree

  datatype Result<+T, +E> = Success(value: T) | Failure(error: E)

  datatype Signal = Terminate | Kill

  // Whether stdin is closed, the signals sent so far, and whether the child has exited.
  datatype Life = Life(stdinClosed: bool, signals: seq<Signal>, exited: bool)

  // What writing data does to what was sent.
  ghost predicate Sends(ok: bool, data: Bytes, before: Bytes, after: Bytes) {
    if ok then after == before + data else exists k: nat :: k <= |data| && after == before + data[..k]
  }

  /** A child: what it will still write to stdout, what it was sent on stdin, and how it stands. */
  class Process {
    var unread: Bytes
    var stdin: Bytes
    var life: Life

    constructor (output: Bytes)
      ensures unread == output && stdin == "" && life == Life(false, [], false)
    {
      unread, stdin, life := output, "", Life(false, [], false);
    }

    // The operating system hands over any non-empty prefix of at most n bytes, and nothing
    // exactly at end of file.
    method Read(n: nat) returns (chunk: Bytes)
      requires n > 0
      modifies this`unread
      ensures old(unread) == chunk + unread
      ensures |chunk| <= n && (chunk == "" <==> old(unread) == "")
    {
      if unread == "" {
        chunk := "";
      } else {
        var k: int :| 1 <= k <= n && k <= |unread|;
        chunk, unread := unread[..k], unread[k..];
      }
    }

    // Writing and draining can raise when the child has gone; some first part was sent then.
    method Write(data: Bytes) returns (ok: bool)
      modifies this`stdin
      ensures Sends(ok, data, old(stdin), stdin)
    {
      ok := *;
      if ok {
        stdin := stdin + data;
      } else {
        var k: nat :| k <= |data|;
        stdin := stdin + data[..k];
      }
    }

    // Waiting for one second: the child may or may not have exited by then.
    method WaitBriefly() returns (done: bool)
      modifies this`life
      ensures life == old(life).(exited := done)
    {
      done := *;
      life := life.(exited := done);
    }

    method Wait()
      modifies this`life
      ensures life == old(life).(exited := true)
    {
      life := life.(exited := true);
    }

    method CloseStdin()
      modifies this`life
      ensures life == old(life).(stdinClosed := true)
    {
      life := life.(stdinClosed := true);
    }

    method Send(signal: Signal)
      modifies this`life
      ensures life == old(life).(signals := old(life).signals + [signal])
    {
      life := life.(signals := life.signals + [signal]);
    }
  }

  // ---------- reading exactly n bytes ----------

  datatype ExactRead = Body(bytes: Bytes) | Incomplete(partial: Bytes, expected: int)

  // Python's buffer[:n].
  function SliceTo(s: Bytes, n: int): (r: Bytes)
    ensures |r| <= |s| && r == s[..|r|]
    ensures n >= 0 ==> |r| == if n <= |s| then n else |s|
  {
    if n >= 0 then s[..if n <= |s| then n else |s|]
    else s[..if |s| + n >= 0 then |s| + n else 0]
  }

  // Reading n bytes when `buffer` is already here and `unread` still in the pipe.
  function ExactFrom(buffer: Bytes, unread: Bytes, n: int): (ExactRead, Bytes) {
    var s := buffer + unread;
    if n < 0 then (Body(SliceTo(buffer, n)), s[|SliceTo(buffer, n)|..])
    else if n <= |s| then (Body(s[..n]), s[n..])
    else (Incomplete(s, n), "")
  }

  /** What reading exactly n bytes gives depends on the stream alone, and not on how much of it
      happens to be buffered, if and only if n is not negative. */
  lemma ExactReadIndependent(n: int)
    ensures (forall b1: Bytes, u1: Bytes, b2: Bytes, u2: Bytes | b1 + u1 == b2 + u2 ::
               ExactFrom(b1, u1, n) == ExactFrom(b2, u2, n))
            <==> n >= 0
  {
    if n < 0 {
      // n + 1 leading bytes buffered against none buffered
      var s: Bytes := seq(1 - n, i => 'x');
      assert s + "" == "" + s;
      assert SliceTo(s, n) == s[..1] && SliceTo("", n) == "";
      assert ExactFrom(s, "", n) != ExactFrom("", s, n);
    }
  }

  // k bytes are what some buffering lets a read of a negative length n take off the stream s.
  predicate Takeable(s: Bytes, n: int, k: nat) {
    k <= |s| && (k == 0 || k <= |s| + n)
  }

  /** With a negative length the possible results are exactly the prefixes that leave at least that
      many bytes behind, and the empty one: each of them is what some split of the stream into
      buffer and pipe gives. */
  lemma NegativeReads(s: Bytes, n: int, k: nat)
    requires n < 0 && k <= |s|
    ensures Takeable(s, n, k)
            <==> exists b: Bytes, u: Bytes :: b + u == s && ExactFrom(b, u, n) == (Body(s[..k]), s[k..])
  {
    if Takeable(s, n, k) {
      var split := if k == 0 then 0 else k - n;
      var b, u := s[..split], s[split..];
      assert b + u == s;
      assert SliceTo(b, n) == s[..k];
      assert ExactFrom(b, u, n) == (Body(s[..k]), s[k..]);
    }
    forall b: Bytes, u: Bytes | b + u == s && ExactFrom(b, u, n) == (Body(s[..k]), s[k..])
      ensures Takeable(s, n, k)
    {
      assert |SliceTo(b, n)| == |s[..k]|;
    }
  }

  // ---------- requests ----------

  type Json = JsonTree.Json

  // A JSON-RPC 2.0 message of the client.
  datatype Outgoing =
    | Call(id: int, name: string, params: Json)
    | Notice(name: string, params: Json)

  // One line of ASCII between braces, as json.dumps prints an object by default.
  ghost predicate IsObjectText(text: Bytes) {
    |text| >= 2 && text[0] == '{' && text[|text| - 1] == '}' && Ascii(text) && '\n' !in text
  }

  type JsonWriter = f: Outgoing -> Bytes | forall m :: IsObjectText(f(m))
    witness (m: Outgoing) => "{}"

  datatype RpcError = Transport(read: ReadError) | WriteFailed | Remote(detail: string) | NoResult

  // What a request makes of the message that answers it.
  function Outcome(m: Message): Result<string, RpcError> {
    match m.error
    case ObjectMember(text) => Failure(Remote(text))
    case _ =>
      match m.result
      case ObjectMember(text) => Success(text)
      case _ => Failure(NoResult)
  }

  datatype Awaited =
    | Reply(message: Message)
    | Broken(error: ReadError)

  /** Read on until a message answers `request`: `a` is a possible end of that, with `after` left of
      the stream. It is the only one unless a negative Content-Length is met. */
  ghost predicate Awaits(json: JsonReader, s: Bytes, request: int, a: Awaited, after: Bytes)
    decreases |s|
  {
    NextMessageProgress(json, s);
    match NextMessage(json, s)
    case Took(Failed(e), rest) => a == Broken(e) && after == rest
    case Took(Delivered(m), rest) =>
      if Answers(m, request) then a == Reply(m) && after == rest else Awaits(json, rest, request, a, after)
    case Negative(n, rest) =>
      exists k: nat :: Takeable(rest, n, k) &&
        match LoadBody(json, rest[..k])
        case Failed(e) => a == Broken(e) && after == rest[k..]
        case Delivered(m) =>
          if Answers(m, request) then a == Reply(m) && after == rest[k..]
          else Awaits(json, rest[k..], request, a, after)
  }

  function Settle(a: Awaited): Result<string, RpcError> {
    match a
    case Reply(m) => Outcome(m)
    case Broken(e) => Failure(Transport(e))
  }

  // ---------- starting up ----------

  function NoParams(): Json {
    JsonTree.Dict([])
  }

  function Entry(key: string, value: Json): JsonTree.Field {
    JsonTree.Field(key, value)
  }

  function InitializeParams(): Json {
    JsonTree.Dict([
      Entry("protocolVersion", JsonTree.Text("2024-11-05")),
      Entry("capabilities", JsonTree.Dict([Entry("tools", JsonTree.Dict([Entry("listChanged", JsonTree.Bool(false))]))])),
      Entry("clientInfo", JsonTree.Dict([
        Entry("name", JsonTree.Text("predictclaw")), Entry("version", JsonTree.Text("0.1.0"))]))])
  }

  function Line(dumps: JsonWriter, m: Outgoing): Bytes {
    dumps(m) + "\n"
  }

  function Greeting(id: int): Outgoing {
    Call(id, "initialize", InitializeParams())
  }

  // What follows once the child has answered the greeting.
  function Ready(): Outgoing {
    Notice("notifications/initialized", NoParams())
  }

  // ---------- what a read made of the stream ----------

  ghost predicate ReadingIs(r: Result<Message, ReadError>, reading: Reading) {
    match reading
    case Delivered(m) => r == Success(m)
    case Failed(e) => r == Failure(e)
  }

  // A body of k bytes was taken off s, for a negative length n.
  ghost predicate BodyAt(json: JsonReader, r: Result<Message, ReadError>, s: Bytes, n: int, k: nat, after: Bytes) {
    Takeable(s, n, k) && ReadingIs(r, LoadBody(json, s[..k])) && after == s[k..]
  }

  ghost predicate StepMatches(json: JsonReader, r: Result<Message, ReadError>, step: Step, after: Bytes) {
    match step
    case Took(reading, rest) => ReadingIs(r, reading) && after == rest
    case Negative(n, rest) => exists k: nat :: BodyAt(json, r, rest, n, k, after)
  }

  ghost predicate ReadMatches(json: JsonReader, r: Result<Message, ReadError>, before: Bytes, after: Bytes) {
    StepMatches(json, r, NextMessage(json, before), after)
  }

  lemma ReadShrinks(json: JsonReader, r: Result<Message, ReadError>, before: Bytes, after: Bytes)
    requires ReadMatches(json, r, before, after)
    ensures r.Success? ==> |after| < |before|
  {
    hide NextMessage, LoadBody;
    NextMessageProgress(json, before);
  }

  // What is still to be read from the child, and what it was sent.
  datatype Wire = Wire(input: Bytes, sent: Bytes)

  /** A request: its line is sent, and it ends as the wait for its id can end; when sending raises,
      nothing is read. */
  ghost predicate Asks(json: JsonReader, dumps: JsonWriter, id: int, call: Outgoing, r: Result<string, RpcError>,
                       before: Wire, after: Wire)
  {
    if r == Failure(WriteFailed) then
      Sends(false, Line(dumps, call), before.sent, after.sent) && after.input == before.input
    else Sends(true, Line(dumps, call), before.sent, after.sent) && RequestMatches(json, r, before.input, id, after.input)
  }

  ghost predicate RequestMatches(
    json: JsonReader, r: Result<string, RpcError>, before: Bytes, id: int, after: Bytes)
  {
    exists a :: Awaits(json, before, id, a, after) && r == Settle(a)
  }

  // A notification: its line is sent, and nothing is read.
  ghost predicate Tells(dumps: JsonWriter, notice: Outgoing, r: Result<(), RpcError>, before: Wire, after: Wire) {
    && after.input == before.input && Sends(r.Success?, Line(dumps, notice), before.sent, after.sent)
    && (r.Failure? ==> r.error == WriteFailed)
  }

  // A start: the greeting, and when it gets a result, the notification.
  ghost predicate Greets(json: JsonReader, dumps: JsonWriter, id: int, r: Result<(), RpcError>,
                         before: Wire, after: Wire)
  {
    exists answer, mid :: Asks(json, dumps, id, Greeting(id), answer, before, mid) &&
      if answer.Failure? then r == Failure(answer.error) && after == mid else Tells(dumps, Ready(), r, mid, after)
  }

  lemma GreetingFails(json: JsonReader, dumps: JsonWriter, id: int, answer: Result<string, RpcError>,
                      before: Wire, mid: Wire)
    requires Asks(json, dumps, id, Greeting(id), answer, before, mid) && answer.Failure?
    ensures Greets(json, dumps, id, Failure(answer.error), before, mid)
  {
    hide Asks, Tells;
  }

  lemma GreetingAnswered(json: JsonReader, dumps: JsonWriter, id: int, answer: Result<string, RpcError>,
                         r: Result<(), RpcError>, before: Wire, mid: Wire, after: Wire)
    requires Asks(json, dumps, id, Greeting(id), answer, before, mid) && answer.Success?
    requires Tells(dumps, Ready(), r, mid, after)
    ensures Greets(json, dumps, id, r, before, after)
  {
    hide Asks, Tells;
  }

  // Whatever ends the wait on the stream `now` also ends the wait on the stream `before`.
  ghost predicate Continues(json: JsonReader, before: Bytes, now: Bytes, id: int) {
    forall a, after :: Awaits(json, now, id, a, after) ==> Awaits(json, before, id, a, after)
  }

  // One read inside a request: it settles the request or leaves the same question open.
  lemma AwaitReads(json: JsonReader, r: Result<Message, ReadError>, before: Bytes, now: Bytes, id: int)
    requires ReadMatches(json, r, before, now)
    ensures r.Failure? ==> Awaits(json, before, id, Broken(r.error), now)
    ensures r.Success? && Answers(r.value, id) ==> Awaits(json, before, id, Reply(r.value), now)
    ensures r.Success? && !Answers(r.value, id) ==> Continues(json, before, now, id)
  {
    hide NextMessage, LoadBody, Answers;
    NextMessageProgress(json, before);
    match NextMessage(json, before)
    case Took(_, _) =>
    case Negative(n, rest) =>
      var k: nat :| BodyAt(json, r, rest, n, k, now);
      assert Takeable(rest, n, k);
  }

  class Client {
    const json: JsonReader
    const dumps: JsonWriter
    var process: Process?
    var stdoutBuffer: Bytes
    var requestId: nat

    constructor (json: JsonReader, dumps: JsonWriter, process: Process)
      ensures this.json == json && this.dumps == dumps && this.process == process
      ensures stdoutBuffer == "" && requestId == 0
    {
      this.json, this.dumps, this.process := json, dumps, process;
      stdoutBuffer, requestId := "", 0;
    }

    // The bytes that are still to be consumed: buffered, then in the pipe.
    function Stream(): Bytes
      requires process != null
      reads this, process
    {
      stdoutBuffer + process.unread
    }

    ghost function OnWire(): Wire
      requires process != null
      reads this, process
    {
      Wire(Stream(), process.stdin)
    }

    /** One line, however the pipe splits its bytes. */
    method ReadStdoutLine() returns (line: Bytes)
      requires process != null
      modifies this`stdoutBuffer, process`unread
      ensures line == FirstLine(old(Stream()))
      ensures Stream() == old(Stream())[|line|..]
    {
      while true
        invariant Stream() == old(Stream())
        decreases |process.unread|
      {
        var newline := Find(stdoutBuffer, '\n');
        if newline != -1 {
          line := stdoutBuffer[..newline + 1];
          FirstLineInBuffer(stdoutBuffer, process.unread);
          stdoutBuffer := stdoutBuffer[newline + 1..];
          return;
        }
        var chunk := process.Read(64 * 1024);
        if chunk == "" {
          assert Stream() == stdoutBuffer;
          line := stdoutBuffer;
          stdoutBuffer := "";
          return;
        }
        stdoutBuffer := stdoutBuffer + chunk;
      }
    }

    /** Exactly `length` bytes, however the pipe splits them; a negative length takes what
        Python's slice of the buffer takes. */
    method ReadStdoutExactly(length: int) returns (r: ExactRead)
      requires process != null
      modifies this`stdoutBuffer, process`unread
      ensures (r, Stream()) == ExactFrom(old(stdoutBuffer), old(process.unread), length)
    {
      hide Concat, SliceTo, ExactFrom;
      ghost var buffer, unread, s := stdoutBuffer, process.unread, Stream();
      var remaining := length;
      var chunks: seq<Bytes> := [];
      if stdoutBuffer != "" {
        var buffered := SliceTo(stdoutBuffer, remaining);
        if buffered != "" {
          chunks := chunks + [buffered];
          remaining := remaining - |buffered|;
          stdoutBuffer := stdoutBuffer[|buffered|..];
        }
      }
      TakenFromBuffer(buffer, length, chunks);
      ghost var got := Concat(chunks);
      while remaining > 0
        invariant got == Concat(chunks)
        invariant got + Stream() == s
        invariant remaining == length - |got|
        invariant length >= 0 ==> remaining >= 0
        invariant length < 0 ==> got == SliceTo(buffer, length)
        invariant remaining > 0 ==> stdoutBuffer == ""
      {
        var chunk := process.Read(remaining);
        if chunk == "" {
          assert Stream() == "" && got + "" == got;
          ExactFails(buffer, unread, length);
          return Incomplete(Concat(chunks), length);
        }
        ConcatAppend(chunks, chunk);
        chunks := chunks + [chunk];
        got := got + chunk;
        remaining := remaining - |chunk|;
      }
      ExactTakes(buffer, unread, length, got, Stream());
      r := Body(Concat(chunks));
    }

    /** One message in either framing: the result and the remaining stream are a function of the
        stream alone. With a negative Content-Length the body is some prefix of what follows. */
    method ReadMessage() returns (r: Result<Message, ReadError>)
      modifies this`stdoutBuffer, process
      ensures process != null ==> unchanged(process`stdin, process`life)
      ensures process == null ==> r == Failure(NotConnected) && stdoutBuffer == old(stdoutBuffer)
      ensures process != null ==> ReadMatches(json, r, old(Stream()), Stream())
    {
      if process == null {
        return Failure(NotConnected);
      }
      var line := ReadStdoutLine();
      if line == "" {
        return Failure(ProcessExited);
      }
      if !ValidUtf8(line) {
        return Failure(UndecodableLine);
      }
      var stripped := Strip(line);
      if StartsBlock(stripped) {
        r := ReadHeaderBlock(stripped);
      } else {
        r := Loads(stripped);
      }
    }

    // The rest of a block whose first line, stripped, is `firstLine`.
    method ReadHeaderBlock(firstLine: string) returns (r: Result<Message, ReadError>)
      requires process != null
      modifies this`stdoutBuffer, process`unread
      ensures StepMatches(json, r, ReadBlock(json, firstLine, old(Stream())), Stream())
    {
      var headers := ReadHeaderLines(firstLine);
      match headers
      case Failure(e) => r := Failure(e);
      case Success(table) => r := ReadBody(table);
    }

    method ReadHeaderLines(firstLine: string) returns (r: Result<map<string, string>, ReadError>)
      requires process != null
      modifies this`stdoutBuffer, process`unread
      ensures ReadHeaders(firstLine, old(Stream()), map[])
              == if r.Success? then Headers(r.value, Stream()) else HeaderFailure(r.error, Stream())
    {
      hide Lower, Strip, Find, FirstLine, ValidUtf8;
      var headers: map<string, string> := map[];
      var headerLine := firstLine;
      while headerLine != ""
        invariant ReadHeaders(headerLine, Stream(), headers) == ReadHeaders(firstLine, old(Stream()), map[])
        decreases |Stream()|, headerLine != ""
      {
        var colon := Find(headerLine, ':');
        if colon < 0 {
          return Failure(MalformedHeader);
        }
        headers := headers[Lower(headerLine[..colon]) := Strip(headerLine[colon + 1..])];
        var nextLine := ReadStdoutLine();
        if nextLine == "" {
          return Failure(ProcessExited);
        }
        if !ValidUtf8(nextLine) {
          return Failure(UndecodableHeader);
        }
        headerLine := Strip(nextLine);
      }
      r := Success(headers);
    }

    method ReadBody(headers: map<string, string>) returns (r: Result<Message, ReadError>)
      requires process != null
      modifies this`stdoutBuffer, process`unread
      ensures StepMatches(json, r, TakeBody(json, headers, old(Stream())), Stream())
    {
      if LENGTH_KEY !in headers {
        return Failure(MissingLength);
      }
      var length := ParseInt(headers[LENGTH_KEY]);
      if length == None {
        return Failure(InvalidPayload);
      }
      ghost var s := Stream();
      var body := ReadStdoutExactly(length.value);
      if body.Incomplete? || !ValidUtf8(body.bytes) {
        r := Failure(InvalidPayload);
      } else {
        r := Loads(body.bytes);
      }
      if length.value < 0 {
        assert body.bytes == s[..|body.bytes|];
        assert BodyAt(json, r, s, length.value, |body.bytes|, Stream());
      }
    }

    method Loads(text: Bytes) returns (r: Result<Message, ReadError>)
      ensures ReadingIs(r, Load(json, text))
    {
      match json(text)
      case Invalid => r := Failure(InvalidPayload);
      case NonObject => r := Failure(NotAnObject);
      case Object(m) => r := Success(m);
    }

    /** One newline-terminated line on the child's stdin, whole unless writing raises. */
    method WriteMessage(message: Outgoing) returns (r: Result<(), RpcError>)
      modifies process
      ensures process == null ==> r == Failure(Transport(NotConnected))
      ensures process != null ==> unchanged(process`unread, process`life)
      ensures process != null ==> Tells(dumps, message, r, old(OnWire()), OnWire())
    {
      hide Line, Sends;
      if process == null {
        return Failure(Transport(NotConnected));
      }
      var ok := process.Write(Line(dumps, message));
      r := if ok then Success(()) else Failure(WriteFailed);
    }

    /** A request takes a fresh id, and its result and the remaining stream are those of Awaits:
        messages that answer other ids are skipped, nothing after the answer is touched. */
    method Request(name: string, params: Json) returns (r: Result<string, RpcError>)
      modifies this`stdoutBuffer, this`requestId, process
      ensures process != null ==> unchanged(process`life)
      ensures process == null ==> r == Failure(Transport(NotConnected)) && requestId == old(requestId)
      ensures process != null ==> requestId == old(requestId) + 1
      ensures process != null ==>
                Asks(json, dumps, requestId, Call(requestId, name, params), r, old(OnWire()), OnWire())
    {
      hide Awaits, ReadMatches, Answers, Line, Sends;
      if process == null {
        return Failure(Transport(NotConnected));
      }
      requestId := requestId + 1;
      var id := requestId;
      var written := WriteMessage(Call(id, name, params));
      if written.Failure? {
        return Failure(written.error);
      }
      ghost var sent := process.stdin;
      while true
        invariant requestId == id && process.stdin == sent && process.life == old(process.life)
        invariant Continues(json, old(Stream()), Stream(), id)
        decreases |Stream()|
      {
        ghost var before := Stream();
        var message := ReadMessage();
        AwaitReads(json, message, before, Stream(), id);
        ReadShrinks(json, message, before, Stream());
        if message.Failure? {
          assert Awaits(json, old(Stream()), id, Broken(message.error), Stream());
          return Failure(Transport(message.error));
        }
        if !Answers(message.value, id) {
          continue;
        }
        assert Awaits(json, old(Stream()), id, Reply(message.value), Stream());
        r := Outcome(message.value);
        return;
      }
    }

    /** A notification is written and nothing is read. */
    method Notify(name: string, params: Json) returns (r: Result<(), RpcError>)
      modifies process
      ensures process == null ==> r == Failure(Transport(NotConnected))
      ensures process != null ==> unchanged(process`unread, process`life)
      ensures process != null ==> Tells(dumps, Notice(name, params), r, old(OnWire()), OnWire())
    {
      hide Tells;
      r := WriteMessage(Notice(name, params));
    }

    /** Starting sends the greeting, waits for its answer and says it is ready; a failed start has
        closed the client and its child has exited. */
    method Start() returns (r: Result<(), RpcError>)
      requires process != null
      modifies this, process
      ensures requestId == old(requestId) + 1
      ensures if r.Success? then process == old(process) && process.life == old(process.life)
              else process == null && Ended(old(process.life), old(process).life)
      ensures Greets(json, dumps, requestId, r, old(OnWire()),
                     Wire(stdoutBuffer + old(process).unread, old(process).stdin))
    {
      hide Asks, Tells, Ended, Greets;
      ghost var before := OnWire();
      var answer := Request("initialize", InitializeParams());
      ghost var mid := OnWire();
      if answer.Failure? {
        GreetingFails(json, dumps, requestId, answer, before, mid);
        Close();
        return Failure(answer.error);
      }
      r := Notify("notifications/initialized", NoParams());
      GreetingAnswered(json, dumps, requestId, answer, r, before, mid, OnWire());
      if r.Failure? {
        Close();
      }
    }

    /** Closing forgets the process, closes its stdin and waits until it has exited, first kindly,
        then after a signal, then after killing it. Without a process it does nothing; the buffer
        and the request counter stay. */
    method Close()
      modifies this`process, process
      ensures process == null
      ensures old(process) != null ==> unchanged(old(process)`unread, old(process)`stdin)
      ensures old(process) != null ==> Ended(old(process.life), old(process).life)
    {
      if process == null {
        return;
      }
      var child := process;
      process := null;
      child.CloseStdin();
      var done := child.WaitBriefly();
      if !done {
        child.Send(Terminate);
        done := child.WaitBriefly();
        if !done {
          child.Send(Kill);
          child.Wait();
        }
      }
    }
  }

  // A child that was closed: no more input, gone, and after no more signals than it took.
  predicate Ended(before: Life, after: Life) {
    && after.stdinClosed && after.exited
    && (|| after.signals == before.signals
        || after.signals == before.signals + [Terminate]
        || after.signals == before.signals + [Terminate] + [Kill])
  }

  lemma {:induction false} FindInBuffer(buffer: Bytes, c: char, more: Bytes)
    requires c in buffer
    ensures Find(buffer + more, c) == Find(buffer, c)
  {
    if buffer[0] != c {
      assert (buffer + more)[1..] == buffer[1..] + more;
      FindInBuffer(buffer[1..], c, more);
    }
  }

  lemma FirstLineInBuffer(buffer: Bytes, unread: Bytes)
    requires '\n' in buffer
    ensures FirstLine(buffer + unread) == buffer[..Find(buffer, '\n') + 1]
    ensures (buffer + unread)[Find(buffer, '\n') + 1..] == buffer[Find(buffer, '\n') + 1..] + unread
  {
    hide Find;
    FindInBuffer(buffer, '\n', unread);
    var k := Find(buffer, '\n') + 1;
    assert (buffer + unread)[..k] == buffer[..k];
  }

  lemma TakenFromBuffer(buffer: Bytes, n: int, chunks: seq<Bytes>)
    requires chunks == (if SliceTo(buffer, n) == "" then [] else [SliceTo(buffer, n)])
    ensures Concat(chunks) == SliceTo(buffer, n)
    ensures Concat(chunks) + buffer[|SliceTo(buffer, n)|..] == buffer
  {
    var t := SliceTo(buffer, n);
    assert [t][1..] == [];
    assert t + buffer[|t|..] == buffer;
  }

  lemma ExactTakes(buffer: Bytes, unread: Bytes, n: int, got: Bytes, rest: Bytes)
    requires got + rest == buffer + unread
    requires if n >= 0 then |got| == n else got == SliceTo(buffer, n)
    ensures ExactFrom(buffer, unread, n) == (Body(got), rest)
  {
    var s := buffer + unread;
    assert s[..|got|] == got && s[|got|..] == rest;
  }

  lemma ExactFails(buffer: Bytes, unread: Bytes, n: int)
    requires n > |buffer + unread|
    ensures ExactFrom(buffer, unread, n) == (Incomplete(buffer + unread, n), "")
  {
  }

  // b"".join(chunks)
  function Concat(chunks: seq<Bytes>): Bytes {
    if chunks == [] then "" else chunks[0] + Concat(chunks[1..])
  }

  lemma {:induction false} ConcatAppend(chunks: seq<Bytes>, chunk: Bytes)
    ensures Concat(chunks + [chunk]) == Concat(chunks) + chunk
  {
    if chunks == [] {
      assert chunks + [chunk] == [chunk];
      assert [chunk][1..] == [];
    } else {
      assert (chunks + [chunk])[1..] == chunks[1..] + [chunk];
      ConcatAppend(chunks[1..], chunk);
    }
  }
}
