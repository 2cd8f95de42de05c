/** The bridge over one MCP client: connect, close, and the gate in front of every tool call. */
module Bridge {
  import opened Text
  import opened Framing
  import opened StdioClient
  import JsonTree
  import NullRemoval

  const V1_REQUIRED := {"factory_predict_vault_address", "factory_create_vault_prepare", "vault_health_check"}
  const BOOTSTRAP_REQUIRED := {"vault_bootstrap"}

  predicate RuntimeReady(tools: set<string>) {
    BOOTSTRAP_REQUIRED <= tools || V1_REQUIRED - tools == {}
  }

  function MissingRequired(tools: set<string>): set<string> {
    if RuntimeReady(tools) then {} else V1_REQUIRED - tools
  }

  // The tools a refused call reports as missing; empty when the call may go ahead.
  function Gate(tools: set<string>, tool: string, txPreparation: bool, required: Option<set<string>>): set<string> {
    if tool !in tools then {tool}
    else if required.Some? then required.value - tools
    else if txPreparation then MissingRequired(tools)
    else {}
  }

  /** The gate opens exactly when the tool is offered and so is everything the call depends on: its
      own list when it names one, else, for a transaction preparation, a ready runtime. A refusal
      names only tools that are not offered. */
  lemma GateMeaning(tools: set<string>, tool: string, txPreparation: bool, required: Option<set<string>>)
    ensures Gate(tools, tool, txPreparation, required) == {}
            <==> && tool in tools
                 && (required.Some? ==> required.value <= tools)
                 && (required.None? && txPreparation ==> RuntimeReady(tools))
    ensures Gate(tools, tool, txPreparation, required) !! tools
  {
    var gate := Gate(tools, tool, txPreparation, required);
    if tool !in tools {
      assert tool in gate;
    } else if required.Some? {
      if gate == {} {
        assert forall t :: t in required.value ==> t in tools || t in gate;
      }
    } else {
      assert !RuntimeReady(tools) ==> V1_REQUIRED - tools != {};
    }
  }

  /** A runtime is ready when it bootstraps vaults, or else offers all three tools of version 1. */
  lemma ReadyIff(tools: set<string>)
    ensures RuntimeReady(tools)
            <==> || "vault_bootstrap" in tools
                 || ("factory_predict_vault_address" in tools && "factory_create_vault_prepare" in tools
                     && "vault_health_check" in tools)
  {
    var missing := V1_REQUIRED - tools;
    assert forall tool :: tool in missing <==> tool in V1_REQUIRED && tool !in tools;
    if V1_REQUIRED <= tools {
      assert missing == {};
    }
  }

  datatype BridgeError =
    | CannotStart
    | Rpc(error: RpcError)
    | MalformedTools
    | MissingTools(tools: set<string>)
    | MalformedContent

  /** How the texts of result objects are read: the tool names of a tools/list result, and the
      structuredContent of a tools/call result. */
  datatype Schema = Schema(toolNames: string -> Option<set<string>>, structured: string -> Option<string>)

  // What a bridge is made with.
  datatype Env = Env(json: JsonReader, dumps: JsonWriter, schema: Schema)

  // ---------- what goes over the wire ----------

  function ToolNames(schema: Schema, listed: Result<string, RpcError>): Result<set<string>, BridgeError> {
    match listed
    case Failure(e) => Failure(Rpc(e))
    case Success(text) =>
      match schema.toolNames(text)
      case None => Failure(MalformedTools)
      case Some(names) => Success(names)
  }

  // What the bridge makes of the answer to a tool call.
  function CallOutcome(schema: Schema, answer: Result<string, RpcError>): Result<string, BridgeError> {
    match answer
    case Failure(e) => Failure(Rpc(e))
    case Success(text) =>
      match schema.structured(text)
      case None => Failure(MalformedContent)
      case Some(content) => Success(content)
  }

  function ToolParams(tool: string, arguments: Json): Json {
    JsonTree.Dict([Entry("name", JsonTree.Text(tool)), Entry("arguments", arguments)])
  }

  // The arguments as they are sent: without nulls.
  function Filtered(arguments: seq<JsonTree.Field>): Json {
    NullRemoval.Cleaned(JsonTree.Dict(arguments))
  }

  // The tool listing with this id: r is what its answer says.
  ghost predicate Lists(env: Env, r: Result<set<string>, BridgeError>, id: int, before: Wire, after: Wire) {
    exists answer :: Asks(env.json, env.dumps, id, Call(id, "tools/list", NoParams()), answer, before, after)
                     && r == ToolNames(env.schema, answer)
  }

  // The first start of a child, with id 1.
  ghost predicate Starts(env: Env, r: Result<(), RpcError>, before: Wire, after: Wire) {
    Greets(env.json, env.dumps, 1, r, before, after)
  }

  /** A connect on a new child: the start, and when it succeeds the listing with id 2, whose tools
      are kept. Every failure keeps no tool. */
  ghost predicate Connects(env: Env, r: Result<(), BridgeError>, tools: set<string>, before: Wire, after: Wire) {
    exists started, mid :: Starts(env, started, before, mid) &&
      if started.Failure? then r == Failure(Rpc(started.error)) && tools == {} && after == mid
      else ListsInto(env, r, tools, mid, after)
  }

  ghost predicate ListsInto(env: Env, r: Result<(), BridgeError>, tools: set<string>, before: Wire, after: Wire) {
    exists listed :: Lists(env, listed, 2, before, after) &&
      if listed.Success? then r == Success(()) && tools == listed.value
      else r == Failure(listed.error) && tools == {}
  }

  // One tool call: what is asked for.
  datatype ToolCall = ToolCall(
    tool: string, arguments: seq<JsonTree.Field>, txPreparation: bool, required: Option<set<string>>)

  /** A tool call with this id on a connected bridge: a shut gate sends and reads nothing; an open one
      sends one request and returns what its answer says. */
  ghost predicate Calls(env: Env, tools: set<string>, call: ToolCall, id: int, r: Result<string, BridgeError>,
                        before: Wire, after: Wire)
  {
    var gate := Gate(tools, call.tool, call.txPreparation, call.required);
    if gate != {} then r == Failure(MissingTools(gate)) && after == before
    else
      exists answer ::
        && Asks(env.json, env.dumps, id, Call(id, "tools/call", ToolParams(call.tool, Filtered(call.arguments))), answer,
                before, after)
        && r == CallOutcome(env.schema, answer)
  }

  /** The first tool call of a bridge: it connects, and when that succeeds it calls with id 3. */
  ghost predicate FirstCall(env: Env, tools: set<string>, call: ToolCall, r: Result<string, BridgeError>,
                            before: Wire, after: Wire)
  {
    exists connected, mid :: Connects(env, connected, tools, before, mid) &&
      if connected.Failure? then r == Failure(connected.error) && after == mid
      else Calls(env, tools, call, 3, r, mid, after)
  }

  lemma StartFailed(env: Env, started: Result<(), RpcError>, before: Wire, mid: Wire)
    requires Starts(env, started, before, mid) && started.Failure?
    ensures Connects(env, Failure(Rpc(started.error)), {}, before, mid)
  {
    hide Starts, Lists;
  }

  lemma StartedAndListed(env: Env, started: Result<(), RpcError>, listed: Result<set<string>, BridgeError>,
                         before: Wire, mid: Wire, after: Wire)
    requires Starts(env, started, before, mid) && started.Success? && Lists(env, listed, 2, mid, after)
    ensures if listed.Success? then Connects(env, Success(()), listed.value, before, after)
            else Connects(env, Failure(listed.error), {}, before, after)
  {
    hide Starts, Lists;
    if listed.Success? {
      assert ListsInto(env, Success(()), listed.value, mid, after);
    } else {
      assert ListsInto(env, Failure(listed.error), {}, mid, after);
    }
  }

  class McpBridge {
    const env: Env
    var client: Client?
    var tools: set<string>

    constructor (env: Env)
      ensures Valid() && client == null && this.env == env
    {
      this.env := env;
      client, tools := null, {};
    }

    // Without a client no tool is offered; a client that is kept has its process.
    ghost predicate Valid()
      reads this, client
    {
      && (client == null ==> tools == {})
      && (client != null ==> client.process != null && client.json == env.json && client.dumps == env.dumps)
    }

    ghost function Footprint(): set<object>
      reads this, client
    {
      if client == null then {this}
      else if client.process == null then {this, client}
      else {this, client, client.process}
    }

    /** Connecting twice changes nothing; without a child there is nothing to connect to. A connect
        that succeeds keeps a new client on the child; one that fails keeps no client, and the child
        has exited. `spawned` is the child that the command starts, or null when it cannot be
        started; `left` is the wire as the connect left it. */
    method Connect(spawned: Process?) returns (r: Result<(), BridgeError>, ghost left: Wire)
      requires Valid()
      modifies this, spawned
      ensures Valid()
      ensures old(client) != null ==> r == Success(()) && client == old(client) && tools == old(tools)
      ensures old(client) != null && spawned != null ==> unchanged(spawned)
      ensures old(client) == null && spawned == null ==> r == Failure(CannotStart) && client == null
      ensures old(client) == null && spawned != null ==>
                && Connects(env, r, tools, Wire(old(spawned.unread), old(spawned.stdin)), left)
                && left.sent == spawned.stdin && IsSuffix(spawned.unread, left.input)
      ensures old(client) == null && r.Success? ==>
                && client != null && fresh(client) && client.process == spawned
                && client.requestId == 2 && client.OnWire() == left
      ensures old(client) == null && spawned != null && r.Failure? ==>
                client == null && Ended(old(spawned.life), spawned.life)
    {
      left := Wire("", "");
      if client != null {
        return Success(()), left;
      }
      if spawned == null {
        return Failure(CannotStart), left;
      }
      var c := new Client(env.json, env.dumps, spawned);
      r := Introduce(c);
      left := Wire(c.stdoutBuffer + spawned.unread, spawned.stdin);
    }

    /** Starts a new client and keeps it with exactly the tools it lists; when the start or the
        listing fails, nothing is kept and the child has exited. */
    method Introduce(c: Client) returns (r: Result<(), BridgeError>)
      requires Valid() && client == null
      requires c.process != null && c.json == env.json && c.dumps == env.dumps && c.requestId == 0 && c.stdoutBuffer == ""
      modifies this, c, c.process
      ensures Valid()
      ensures if r.Success? then client == c && c.process == old(c.process) && c.requestId == 2
              else client == null && tools == {} && Ended(old(c.process.life), old(c.process).life)
      ensures Connects(env, r, tools, Wire(old(c.process.unread), old(c.process.stdin)),
                       Wire(c.stdoutBuffer + old(c.process).unread, old(c.process).stdin))
    {
      hide Connects, Lists, Starts, Ended;
      ghost var child, before := c.process, Wire(c.process.unread, c.process.stdin);
      var started := StartNew(c);
      ghost var mid := Wire(c.stdoutBuffer + child.unread, child.stdin);
      if started.Failure? {
        StartFailed(env, started, before, mid);
        return Failure(Rpc(started.error));
      }
      client := c;
      var listed := ListTools(c);
      ghost var after := Wire(c.stdoutBuffer + child.unread, child.stdin);
      StartedAndListed(env, started, listed, before, mid, after);
      if listed.Failure? {
        c.Close();
        client, tools := null, {};
        return Failure(listed.error);
      }
      tools := listed.value;
      return Success(());
    }

    // The start of a new client.
    method StartNew(c: Client) returns (r: Result<(), RpcError>)
      requires c.process != null && c.json == env.json && c.dumps == env.dumps && c.requestId == 0 && c.stdoutBuffer == ""
      modifies c, c.process
      ensures Starts(env, r, Wire(old(c.process.unread), old(c.process.stdin)),
                     Wire(c.stdoutBuffer + old(c.process).unread, old(c.process).stdin))
      ensures if r.Success? then c.process == old(c.process) && c.requestId == 1 && c.process.life == old(c.process.life)
              else Ended(old(c.process.life), old(c.process).life)
    {
      hide Greets, Ended;
      assert c.Stream() == c.process.unread;
      r := c.Start();
    }

    method ListTools(c: Client) returns (r: Result<set<string>, BridgeError>)
      requires c.process != null && c.json == env.json && c.dumps == env.dumps
      modifies c`stdoutBuffer, c`requestId, c.process
      ensures c.requestId == old(c.requestId) + 1 && unchanged(c.process`life)
      ensures Lists(env, r, c.requestId, old(c.OnWire()), c.OnWire())
    {
      hide Asks;
      var payload := c.Request("tools/list", NoParams());
      if payload.Failure? {
        return Failure(Rpc(payload.error));
      }
      match env.schema.toolNames(payload.value)
      case None => r := Failure(MalformedTools);
      case Some(names) => r := Success(names);
    }

    /** Closing twice changes nothing; afterwards there is no client, no tool and no process, and the
        child has exited. */
    method Close()
      requires Valid()
      modifies Footprint()
      ensures Valid() && client == null && tools == {}
      ensures old(client) != null ==>
                old(client).process == null && Ended(old(client.process.life), old(client.process).life)
    {
      var c := client;
      client, tools := null, {};
      if c != null {
        c.Close();
      }
    }

    /** A tool call, on a bridge that is connected or not: what it sends, what it reads and what it
        returns, to the byte. */
    method CallTool(spawned: Process?, call: ToolCall) returns (r: Result<string, BridgeError>, ghost left: Wire)
      requires Valid()
      requires client != null ==> client.process != spawned
      modifies Footprint(), spawned
      ensures Valid()
      ensures old(client) != null ==>
                && client == old(client) && tools == old(tools) && client.process == old(client.process)
                && Calls(env, tools, call, old(client.requestId) + 1, r, old(client.OnWire()), left)
                && (spawned != null ==> unchanged(spawned))
      ensures old(client) == null && spawned == null ==> r == Failure(CannotStart) && client == null
      ensures old(client) == null && spawned != null ==>
                FirstCall(env, tools, call, r, Wire(old(spawned.unread), old(spawned.stdin)), left)
      ensures old(client) == null && spawned != null ==>
                if client == null then Ended(old(spawned.life), spawned.life) else client.process == spawned
      ensures client != null ==> client.OnWire() == left
    {
      hide Calls, FirstCall, Connects, Ended, IsSuffix, Asks, Gate;
      ghost var first := client == null;
      ghost var before := if spawned == null then Wire("", "") else Wire(spawned.unread, spawned.stdin);
      var connected;
      connected, left := Connect(spawned);
      ghost var mid := left;
      if connected.Failure? {
        r := Failure(connected.error);
        if spawned != null {
          FirstCallFails(env, connected, tools, call, before, mid);
        }
        return;
      }
      r, left := CallConnected(client, call);
      if first {
        FirstCallCalls(env, connected, tools, call, r, before, mid, left);
      }
    }

    // The call itself, behind the gate.
    method CallConnected(c: Client, call: ToolCall) returns (r: Result<string, BridgeError>, ghost left: Wire)
      requires c.process != null && c.json == env.json && c.dumps == env.dumps
      modifies c`stdoutBuffer, c`requestId, c.process
      ensures Calls(env, tools, call, old(c.requestId) + 1, r, old(c.OnWire()), left) && c.OnWire() == left
      ensures unchanged(c.process`life)
    {
      hide Asks, Gate, NullRemoval.Cleaned, ToolParams;
      left := c.OnWire();
      var gate := Gate(tools, call.tool, call.txPreparation, call.required);
      if gate != {} {
        return Failure(MissingTools(gate)), left;
      }
      var filtered := NullRemoval.DropNoneValues(JsonTree.Dict(call.arguments));
      assert filtered == Filtered(call.arguments);
      var payload := c.Request("tools/call", ToolParams(call.tool, filtered));
      left := c.OnWire();
      if payload.Failure? {
        return Failure(Rpc(payload.error)), left;
      }
      match env.schema.structured(payload.value)
      case None => r := Failure(MalformedContent);
      case Some(content) => r := Success(content);
    }
  }

  // What goes over the wire for a call: the name of the tool, and under "arguments" exactly the nodes of
  // its arguments that are not null, and nothing else.
  ghost predicate HoldsCall(params: Json, call: ToolCall) {
    var name := NullRemoval.Key("name");
    NullRemoval.Nodes(params, [])
    == [NullRemoval.Node([], NullRemoval.DictNode), NullRemoval.Node([name], NullRemoval.Leaf(JsonTree.Text(call.tool)))]
       + NullRemoval.Nodes(JsonTree.Dict(call.arguments), [NullRemoval.Key("arguments")])
  }

  lemma ParamsHold(call: ToolCall)
    ensures HoldsCall(ToolParams(call.tool, Filtered(call.arguments)), call)
  {
    hide NullRemoval.Cleaned, NullRemoval.Nodes;
    NullRemoval.CleanedKeepsNodes(JsonTree.Dict(call.arguments), [NullRemoval.Key("arguments")]);
    ParamsNodes(call.tool, Filtered(call.arguments));
  }

  lemma ParamsNodes(tool: string, arguments: Json)
    ensures NullRemoval.Nodes(ToolParams(tool, arguments), [])
            == [NullRemoval.Node([], NullRemoval.DictNode),
                NullRemoval.Node([NullRemoval.Key("name")], NullRemoval.Leaf(JsonTree.Text(tool)))]
               + NullRemoval.Nodes(arguments, [NullRemoval.Key("arguments")])
  {
    var first, second := Entry("name", JsonTree.Text(tool)), Entry("arguments", arguments);
    assert [first, second][1..] == [second] && [second][1..] == [];
    var name := NullRemoval.Node([NullRemoval.Key("name")], NullRemoval.Leaf(JsonTree.Text(tool)));
    var args := NullRemoval.Nodes(arguments, [NullRemoval.Key("arguments")]);
    assert NullRemoval.Nodes(first.value, [] + [NullRemoval.Key("name")]) == [name] by {
      assert [] + [NullRemoval.Key("name")] == [NullRemoval.Key("name")];
    }
    assert NullRemoval.FieldNodes([second], []) == args by {
      assert [] + [NullRemoval.Key("arguments")] == [NullRemoval.Key("arguments")];
      assert NullRemoval.FieldNodes([second][1..], []) == [];
      assert args + [] == args;
    }
    assert NullRemoval.FieldNodes([first, second], []) == [name] + args;
  }

  /** A call that goes ahead sends one line, a request for the tool that carries its arguments without
      nulls; when writing raises, some first part of that line. */
  lemma CallSends(env: Env, tools: set<string>, call: ToolCall, id: int, r: Result<string, BridgeError>,
                  before: Wire, after: Wire) returns (params: Json)
    requires Calls(env, tools, call, id, r, before, after)
    requires Gate(tools, call.tool, call.txPreparation, call.required) == {}
    ensures HoldsCall(params, call)
    ensures Sends(r != Failure(Rpc(WriteFailed)), Line(env.dumps, Call(id, "tools/call", params)),
                  before.sent, after.sent)
  {
    hide Gate, Filtered, ToolParams, HoldsCall, Sends, RequestMatches, Line;
    params := ToolParams(call.tool, Filtered(call.arguments));
    ParamsHold(call);
    var answer :| Asks(env.json, env.dumps, id, Call(id, "tools/call", params), answer, before, after)
                  && r == CallOutcome(env.schema, answer);
  }

  lemma FirstCallFails(env: Env, connected: Result<(), BridgeError>, tools: set<string>, call: ToolCall,
                       before: Wire, mid: Wire)
    requires Connects(env, connected, tools, before, mid) && connected.Failure?
    ensures FirstCall(env, tools, call, Failure(connected.error), before, mid)
  {
    hide Connects, Calls;
  }

  lemma FirstCallCalls(env: Env, connected: Result<(), BridgeError>, tools: set<string>, call: ToolCall,
                       r: Result<string, BridgeError>, before: Wire, mid: Wire, after: Wire)
    requires Connects(env, connected, tools, before, mid) && connected.Success?
    requires Calls(env, tools, call, 3, r, mid, after)
    ensures FirstCall(env, tools, call, r, before, after)
  {
    hide Connects, Calls;
  }
}
