/** The bridge on a child that sends framed messages: what a connect keeps and what a call returns, in
    terms of those messages. */
module BridgeRuns {
  import opened Text
  import opened Framing
  import opened FramingRoundTrip
  import opened StdioClient
  import opened Bridge
  import opened Correlation
  import JsonTree
  import NullRemoval

  // Message i is the first one with this id.
  predicate FirstWith(ms: seq<Message>, id: int, i: nat) {
    i < |ms| && HasId(ms[i], id) && forall j :: 0 <= j < i ==> !HasId(ms[j], id)
  }

  predicate NoneWith(ms: seq<Message>, id: int) {
    forall j :: 0 <= j < |ms| ==> !HasId(ms[j], id)
  }

  // What is left of the messages behind the first one with this id.
  function Behind<T>(xs: seq<T>, i: nat): seq<T>
    requires i < |xs|
  {
    xs[i + 1..]
  }

  // A request that was written, on framed messages.
  lemma AskedOnFrames(json: JsonReader, dumps: JsonWriter, fs: seq<Frame>, ms: seq<Message>, id: int, call: Outgoing,
                      r: Result<string, RpcError>, before: Wire, after: Wire) returns (i: nat)
    requires CarriesAll(json, fs, ms) && before.input == EncodeAll(fs) && r != Failure(WriteFailed)
    requires Asks(json, dumps, id, call, r, before, after)
    ensures i <= |ms| == |fs| && after.sent == before.sent + Line(dumps, call)
    ensures if i < |ms| then FirstWith(ms, id, i) && Returns(ms[i], r) && after.input == EncodeAll(Behind(fs, i))
            else NoneWith(ms, id) && r == Failure(Transport(ProcessExited)) && after.input == ""
  {
    hide RequestMatches, Carries, HasId, Returns, Line;
    i := RequestReturns(json, fs, ms, id, r, after.input);
  }

  // The message is an answer with this result.
  predicate Results(m: Message, text: string) {
    !m.error.ObjectMember? && m.result == ObjectMember(text)
  }

  lemma SuccessResults(m: Message, text: string)
    ensures Returns(m, Success(text)) <==> Results(m, text)
  {
  }

  /** A connect that succeeds: the first message with id 1 has a result object; behind it, the first one
      with id 2 has a result that lists exactly the tools that are kept; three lines were sent, and the
      frames behind the second answer are what is still to be read. */
  lemma ConnectKeeps(env: Env, fs: seq<Frame>, ms: seq<Message>, tools: set<string>, before: Wire, after: Wire)
    returns (i: nat, j: nat, greeting: string, listing: string)
    requires CarriesAll(env.json, fs, ms) && before.input == EncodeAll(fs)
    requires Connects(env, Success(()), tools, before, after)
    ensures FirstWith(ms, 1, i) && Results(ms[i], greeting) && |fs| == |ms|
    ensures FirstWith(Behind(ms, i), 2, j) && Results(Behind(ms, i)[j], listing)
    ensures env.schema.toolNames(listing) == Some(tools)
    ensures after.input == EncodeAll(Behind(Behind(fs, i), j))
    ensures after.sent == before.sent + Line(env.dumps, Greeting(1)) + Line(env.dumps, Ready())
                          + Line(env.dumps, Call(2, "tools/list", NoParams()))
  {
    hide Asks, Line, Greeting, Ready, Carries, Returns, Results, FirstWith, NoneWith, Encode;
    var answer, mid, listed, answer' := ConnectParts(env, tools, before, after);
    i := AskedOnFrames(env.json, env.dumps, fs, ms, 1, Greeting(1), answer, before, mid);
    var ready := Wire(mid.input, mid.sent + Line(env.dumps, Ready()));
    j := AskedOnFrames(env.json, env.dumps, Behind(fs, i), Behind(ms, i), 2, Call(2, "tools/list", NoParams()), answer',
                       ready, after);
    greeting, listing := answer.value, answer'.value;
    SuccessResults(ms[i], greeting);
    SuccessResults(Behind(ms, i)[j], listing);
  }

  // The two requests inside a connect that succeeds.
  lemma ConnectParts(env: Env, tools: set<string>, before: Wire, after: Wire)
    returns (answer: Result<string, RpcError>, mid: Wire, listed: set<string>, answer': Result<string, RpcError>)
    requires Connects(env, Success(()), tools, before, after)
    ensures answer.Success? && Asks(env.json, env.dumps, 1, Greeting(1), answer, before, mid)
    ensures answer'.Success? && env.schema.toolNames(answer'.value) == Some(tools) && listed == tools
    ensures Asks(env.json, env.dumps, 2, Call(2, "tools/list", NoParams()), answer',
                 Wire(mid.input, mid.sent + Line(env.dumps, Ready())), after)
  {
    hide Asks, Line, Greeting, Ready;
    var started, ready :| Starts(env, started, before, ready) && started.Success?
                          && ListsInto(env, Success(()), tools, ready, after);
    answer, mid :| Asks(env.json, env.dumps, 1, Greeting(1), answer, before, mid)
                   && answer.Success? && Tells(env.dumps, Ready(), started, mid, ready);
    listed := tools;
    var all :| Lists(env, all, 2, ready, after) && all == Success(tools);
    answer' :| Asks(env.json, env.dumps, 2, Call(2, "tools/list", NoParams()), answer', ready, after)
               && all == ToolNames(env.schema, answer');
    assert ready == Wire(mid.input, mid.sent + Line(env.dumps, Ready()));
  }

  /** A call that goes ahead returns what the first message with its id says: the structured content of
      its result, or why there is none. */
  lemma CallReturns(env: Env, tools: set<string>, call: ToolCall, fs: seq<Frame>, ms: seq<Message>, id: int,
                    r: Result<string, BridgeError>, before: Wire, after: Wire) returns (i: nat)
    requires CarriesAll(env.json, fs, ms) && before.input == EncodeAll(fs)
    requires Calls(env, tools, call, id, r, before, after)
    requires Gate(tools, call.tool, call.txPreparation, call.required) == {}
    requires r != Failure(Rpc(WriteFailed))
    ensures i <= |ms| == |fs|
    ensures i == |ms| ==> NoneWith(ms, id) && r == Failure(Rpc(Transport(ProcessExited))) && after.input == ""
    ensures i < |ms| ==>
              var m := ms[i];
              && FirstWith(ms, id, i) && after.input == EncodeAll(Behind(fs, i))
              && (m.error.ObjectMember? ==> r == Failure(Rpc(Remote(m.error.text))))
              && (!m.error.ObjectMember? && !m.result.ObjectMember? ==> r == Failure(Rpc(NoResult)))
              && (!m.error.ObjectMember? && m.result.ObjectMember? ==>
                    match env.schema.structured(m.result.text)
                    case None => r == Failure(MalformedContent)
                    case Some(content) => r == Success(content))
  {
    hide Asks, Gate, Carries, FirstWith, NoneWith, ToolParams, Filtered;
    var request := Call(id, "tools/call", ToolParams(call.tool, Filtered(call.arguments)));
    var answer :| Asks(env.json, env.dumps, id, request, answer, before, after) && r == CallOutcome(env.schema, answer);
    i := AskedOnFrames(env.json, env.dumps, fs, ms, id, request, answer, before, after);
  }

  /** A call that is not offered what it needs: the missing tools are named, and nothing is sent or
      read. */
  lemma CallShut(env: Env, tools: set<string>, call: ToolCall, id: int, r: Result<string, BridgeError>,
                 before: Wire, after: Wire)
    requires Calls(env, tools, call, id, r, before, after) && call.tool !in tools
    ensures r == Failure(MissingTools({call.tool})) && after == before
  {
  }

  // ---------- the greeting ----------

  // The value of a dict under a key.
  ghost predicate At(v: Json, key: string, w: Json) {
    v.Dict? && exists i :: 0 <= i < |v.fields| && v.fields[i] == Entry(key, w)
  }

  /** The greeting asks for revision 2024-11-05 of the protocol and says who is calling; the notice that
      follows it has no parameters. */
  lemma GreetingSays(id: int) returns (client: Json)
    ensures Greeting(id).id == id && Greeting(id).name == "initialize"
    ensures At(Greeting(id).params, "protocolVersion", JsonTree.Text("2024-11-05"))
    ensures At(Greeting(id).params, "clientInfo", client)
    ensures At(client, "name", JsonTree.Text("predictclaw")) && At(client, "version", JsonTree.Text("0.1.0"))
    ensures Ready() == Notice("notifications/initialized", JsonTree.Dict([]))
  {
    var fields := Greeting(id).params.fields;
    client := fields[2].value;
    assert fields[0] == Entry("protocolVersion", JsonTree.Text("2024-11-05"));
    assert fields[2] == Entry("clientInfo", client);
    assert client.fields[0] == Entry("name", JsonTree.Text("predictclaw"));
    assert client.fields[1] == Entry("version", JsonTree.Text("0.1.0"));
  }
}
