/** The conversation engine of `MCPClient` (d1.py): the message history,
    the launch-command check of `connect_to_server`, the tool-calling
    protocol of `process_query` and `reset_conversation`.

    The language-model backend, the MCP session and `json.loads` are not
    modelled: what they return (or the text of what they raise) is given
    to the engine as a `Script`, so every operation is a pure function
    from the client state and its inputs to the new state and its result. */
module Engine {
  import opened Wrappers
  import Text

  const DefaultSystemPrompt := "Sen bir yardımcı asistansın ve gerektiğinde araçları kullanabilirsin."
  const EmptyReply := "[Boş yanıt]"
  const ResetConfirmation := "Sohbet geçmişi temizlendi."
  const NoSessionError := "İşlem yapmadan önce connect_to_server metodunu çağırmalısınız."
  const BadScriptError := "Sunucu scripti .py ya da .js dosyası olmalı"
  const ConnectErrorPrefix := "Sunucuya bağlanırken hata oluştu: "
  const ToolModel := "meta-llama/Llama-4-Maverick-17B-128E-Instruct-FP8"
  const WrapUpModel := "meta-llama/Llama-3.3-70B-Instruct-Turbo-Free"
  const ToolModelMaxTokens := 5000
  const WrapUpMaxTokens := 2000

  /** A tool-call request as the backend emits it; `arguments` is the raw
      JSON text that is parsed before the call. */
  datatype ToolCall = ToolCall(id: string, name: string, arguments: string)

  /** One entry of `self.messages`. */
  datatype Message =
    | System(content: string)
    | User(content: string)
    | Assistant(content: string)
    | ToolCallRecord(call: ToolCall)          // {"role": "assistant", "tool_calls": [call]}
    | ToolResult(toolCallId: string, content: string)

  /** History starts with one system message and holds no other. */
  predicate WellFormed(h: seq<Message>) {
    && |h| >= 1
    && h[0].System?
    && forall i :: 1 <= i < |h| ==> !h[i].System?
  }

  /** The exceptions the engine lets escape to its caller. */
  datatype Exception = ValueError(message: string) | RuntimeError(message: string)

  /** `session` is reduced to whether one is open. */
  datatype Client = Client(connected: bool, history: seq<Message>)

  /** `MCPClient()`: no session and the seeded system prompt. */
  function NewClient(): (c: Client)
    ensures !c.connected
    ensures WellFormed(c.history) && |c.history| == 1
    ensures c.history[0].content == DefaultSystemPrompt
  {
    Client(false, [System(DefaultSystemPrompt)])
  }

  // ---------------------------------------------------------------------
  // connect_to_server

  /** The tool-provider process to start: `command` with the script path
      as its only argument. */
  datatype Launch = Launch(command: string, args: seq<string>)

  /** The extension check and command choice of `connect_to_server`. */
  function LaunchFor(path: string): (r: Result<Launch>)
    ensures r.Success? <==> Text.EndsWith(path, ".py") || Text.EndsWith(path, ".js")
    ensures r.Success? ==> r.value.args == [path]
    ensures r.Success? ==> (r.value.command == "python" <==> Text.EndsWith(path, ".py"))
    ensures r.Success? ==> (r.value.command == "node" <==> !Text.EndsWith(path, ".py"))
    ensures r.Failure? ==> r.error == BadScriptError
  {
    if !(Text.EndsWith(path, ".py") || Text.EndsWith(path, ".js")) then Failure(BadScriptError)
    else Success(Launch(if Text.EndsWith(path, ".py") then "python" else "node", [path]))
  }

  /** `connect_to_server(path)`. `handshake` says how starting the launch
      and initialising the session ends: success, or the text of the
      exception, after which `cleanup` leaves no session. The result pairs
      the new client with the exception raised, if any. */
  function Connect(c: Client, path: string, handshake: Launch -> Result<()>): (r: (Client, Option<Exception>))
    ensures r.0.history == c.history
    ensures LaunchFor(path).Failure? ==> r == (c, Some(ValueError(BadScriptError)))
    ensures LaunchFor(path).Success? ==>
              (r.0.connected <==> handshake(LaunchFor(path).value).Success?)
    ensures LaunchFor(path).Success? && handshake(LaunchFor(path).value).Success? ==> r.1 == None
    ensures LaunchFor(path).Success? && handshake(LaunchFor(path).value).Failure? ==>
              r.1 == Some(RuntimeError(ConnectErrorPrefix + handshake(LaunchFor(path).value).error))
  {
    match LaunchFor(path)
    case Failure(e) => (c, Some(ValueError(e)))
    case Success(launch) =>
      match handshake(launch)
      case Success(_) => (c.(connected := true), None)
      case Failure(e) => (c.(connected := false), Some(RuntimeError(ConnectErrorPrefix + e)))
  }

  // ---------------------------------------------------------------------
  // Tool results

  /** One element of a list-shaped `result.content`: one with a `text`
      attribute, one without (rendered by `str(item)`), or one whose
      rendering raises. */
  datatype ContentItem = TextItem(text: string) | OtherItem(repr: string) | UnprintableItem(error: string)

  /** `result.content` of a tool call: a list, or any other value with its
      `str()` rendering, or a value whose rendering raises. */
  datatype ToolContent =
    | ItemList(items: seq<ContentItem>)
    | OtherContent(repr: string)
    | UnprintableContent(error: string)

  function ToolResultErrorText(e: string): string {
    "[Araç yanıtı işlenirken hata: " + e + "]"
  }

  function RenderItem(item: ContentItem): Result<string> {
    match item
    case TextItem(t) => Success(t)
    case OtherItem(repr) => Success(repr)
    case UnprintableItem(e) => Failure(e)
  }

  /** Index of the first item whose rendering raises, or `|items|`. */
  function FirstUnprintable(items: seq<ContentItem>): (k: nat)
    ensures k <= |items|
    ensures forall i :: 0 <= i < k ==> !items[i].UnprintableItem?
    ensures k < |items| ==> items[k].UnprintableItem?
    decreases |items|
  {
    if |items| == 0 || items[0].UnprintableItem? then 0 else 1 + FirstUnprintable(items[1..])
  }

  /** Renders the items left to right, stopping at the first that raises. */
  function RenderItems(items: seq<ContentItem>): (r: Result<seq<string>>)
    ensures r.Success? <==> FirstUnprintable(items) == |items|
    ensures r.Success? ==> |r.value| == |items|
    ensures r.Success? ==> forall i :: 0 <= i < |items| ==> Success(r.value[i]) == RenderItem(items[i])
    ensures r.Failure? ==> r.error == items[FirstUnprintable(items)].error
    decreases |items|
  {
    if |items| == 0 then Success([])
    else match RenderItem(items[0])
      case Failure(e) => Failure(e)
      case Success(first) =>
        match RenderItems(items[1..])
        case Failure(e) => Failure(e)
        case Success(rest) => Success([first] + rest)
  }

  /** The string stored as the tool message's content (d1.py:79-87). */
  function NormalizeContent(content: ToolContent): (r: string)
    ensures content.ItemList? && FirstUnprintable(content.items) == |content.items| ==>
              r == Text.Join("\n", RenderItems(content.items).value)
    ensures content.ItemList? && FirstUnprintable(content.items) < |content.items| ==>
              r == ToolResultErrorText(content.items[FirstUnprintable(content.items)].error)
    ensures content.OtherContent? ==> r == content.repr
    ensures content.UnprintableContent? ==> r == ToolResultErrorText(content.error)
  {
    match content
    case ItemList(items) =>
      (match RenderItems(items)
       case Success(parts) => Text.Join("\n", parts)
       case Failure(e) => ToolResultErrorText(e))
    case OtherContent(repr) => repr
    case UnprintableContent(e) => ToolResultErrorText(e)
  }

  /** A list of text items without line breaks is recovered from the stored
      content by splitting it at line breaks. */
  lemma NormalizeTextItems(texts: seq<string>)
    requires |texts| >= 1
    requires forall i :: 0 <= i < |texts| ==> '\n' !in texts[i]
    ensures Text.Split(NormalizeContent(ItemList(seq(|texts|, i requires 0 <= i < |texts| => TextItem(texts[i])))), '\n')
            == texts
  {
    var items := seq(|texts|, i requires 0 <= i < |texts| => TextItem(texts[i]));
    var r := RenderItems(items);
    assert r.Success?;
    assert r.value == texts by {
      forall i | 0 <= i < |texts| ensures r.value[i] == texts[i] {
        assert Success(r.value[i]) == RenderItem(items[i]);
      }
    }
    Text.SplitJoin(texts, '\n');
  }

  // ---------------------------------------------------------------------
  // process_query

  /** How the handling of one tool call ends: its arguments are not valid
      JSON, the call raises, or it returns content. */
  datatype CallOutcome = BadArguments(error: string) | CallRaised(error: string) | Returned(content: ToolContent)

  /** A tool-call request paired with how handling it ends. */
  datatype ScriptedCall = ScriptedCall(call: ToolCall, outcome: CallOutcome)

  /** A chat completion: it raises, or its first choice's message has
      `content` (None or text) and `tool_calls` (None and [] both empty). */
  datatype Completion = CompletionRaised(error: string) | Completed(content: Option<string>, calls: seq<ScriptedCall>)

  datatype ToolDescriptor = ToolDescriptor(name: string, description: string, inputSchema: string)

  /** The `{"type": "function", "function": …}` entry of the catalog. */
  datatype FunctionTool = FunctionTool(name: string, description: string, parameters: string)

  /** What the external services do during one query. */
  datatype Script = Script(catalog: Result<seq<ToolDescriptor>>, first: Completion, wrapUp: Completion)

  /** A request sent to the chat-completions endpoint. */
  datatype CompletionRequest = CompletionRequest(
    model: string, maxTokens: nat, messages: seq<Message>, tools: Option<seq<FunctionTool>>)

  datatype Reply = Raised(exception: Exception) | Answer(text: string)

  /** The state after one query, what it returned, the completion
      requests it sent and the tool calls it invoked, in order. */
  datatype Turn = Turn(client: Client, reply: Reply, requests: seq<CompletionRequest>, invoked: seq<ToolCall>)

  function ErrorMarker(e: string): string {
    "[Hata: " + e + "]"
  }

  /** `content or "[Boş yanıt]"`. */
  function OrEmptyReply(content: Option<string>): (r: string)
    ensures r != ""
    ensures content.Some? && content.value != "" ==> r == content.value
    ensures content.None? || content.value == "" ==> r == EmptyReply
  {
    if content.Some? && content.value != "" then content.value else EmptyReply
  }

  function Catalog(tools: seq<ToolDescriptor>): seq<FunctionTool> {
    seq(|tools|, i requires 0 <= i < |tools| => FunctionTool(tools[i].name, tools[i].description, tools[i].inputSchema))
  }

  function CallsOf(calls: seq<ScriptedCall>): seq<ToolCall> {
    seq(|calls|, i requires 0 <= i < |calls| => calls[i].call)
  }

  /** Index of the first call whose handling does not return content, or
      `|calls|` when every call returns. */
  function FirstFailure(calls: seq<ScriptedCall>): (k: nat)
    ensures k <= |calls|
    ensures forall i :: 0 <= i < k ==> calls[i].outcome.Returned?
    ensures k < |calls| ==> !calls[k].outcome.Returned?
    decreases |calls|
  {
    if |calls| == 0 || !calls[0].outcome.Returned? then 0 else 1 + FirstFailure(calls[1..])
  }

  /** `h[start..]` is exactly, for each of `calls` in order, its call
      record followed by the tool message answering it; all of them
      returned content. */
  predicate Exchanged(h: seq<Message>, start: int, calls: seq<ScriptedCall>) {
    && 0 <= start
    && |h| == start + 2 * |calls|
    && forall i :: 0 <= i < |calls| ==>
         && calls[i].outcome.Returned?
         && h[start + 2 * i] == ToolCallRecord(calls[i].call)
         && h[start + 2 * i + 1] == ToolResult(calls[i].call.id, NormalizeContent(calls[i].outcome.content))
  }

  /** Where the tool loop stopped: the history, the calls invoked and the
      error that stopped it, if any. */
  datatype CallsRun = CallsRun(history: seq<Message>, invoked: seq<ToolCall>, error: Option<string>)

  /** The `for tool_call in tool_calls` loop of d1.py:69-93 over history
      `h`. A call is invoked before its record is appended, so a call that
      fails leaves no message of its own. */
  function RunCalls(h: seq<Message>, calls: seq<ScriptedCall>): (r: CallsRun)
    ensures |r.history| >= |h| && r.history[..|h|] == h
    ensures Exchanged(r.history, |h|, calls[..FirstFailure(calls)])
    ensures r.error.None? <==> FirstFailure(calls) == |calls|
    ensures r.error.Some? ==> r.error.value == calls[FirstFailure(calls)].outcome.error
    ensures r.error.None? ==> r.invoked == CallsOf(calls)
    ensures r.error.Some? ==>
              r.invoked == CallsOf(calls[..FirstFailure(calls)])
                           + (if calls[FirstFailure(calls)].outcome.CallRaised? then [calls[FirstFailure(calls)].call] else [])
    decreases |calls|
  {
    if |calls| == 0 then CallsRun(h, [], None)
    else
      var sc := calls[0];
      match sc.outcome
      case BadArguments(e) => CallsRun(h, [], Some(e))
      case CallRaised(e) => CallsRun(h, [sc.call], Some(e))
      case Returned(content) =>
        var h' := h + [ToolCallRecord(sc.call), ToolResult(sc.call.id, NormalizeContent(content))];
        var rest := RunCalls(h', calls[1..]);
        RunCallsStep(h, calls, h', rest);
        CallsRun(rest.history, [sc.call] + rest.invoked, rest.error)
  }

  /** One successful call followed by the rest of the loop is the loop. */
  lemma {:induction false} RunCallsStep(h: seq<Message>, calls: seq<ScriptedCall>, h': seq<Message>, rest: CallsRun)
    requires |calls| > 0 && calls[0].outcome.Returned?
    requires h' == h + [ToolCallRecord(calls[0].call), ToolResult(calls[0].call.id, NormalizeContent(calls[0].outcome.content))]
    requires |rest.history| >= |h'| && rest.history[..|h'|] == h'
    requires Exchanged(rest.history, |h'|, calls[1..][..FirstFailure(calls[1..])])
    ensures Exchanged(rest.history, |h|, calls[..FirstFailure(calls)])
    ensures CallsOf(calls[..FirstFailure(calls)]) == [calls[0].call] + CallsOf(calls[1..][..FirstFailure(calls[1..])])
    ensures CallsOf(calls) == [calls[0].call] + CallsOf(calls[1..])
  {
    var k := FirstFailure(calls[1..]);
    assert calls[..FirstFailure(calls)] == [calls[0]] + calls[1..][..k];
    assert rest.history[|h|] == h'[|h|];
    assert rest.history[|h| + 1] == h'[|h| + 1];
    ExchangedCons(rest.history, |h|, calls[0], calls[1..][..k]);
  }

  /** A call record and its result in front of an exchange extend it. */
  lemma {:induction false} ExchangedCons(h: seq<Message>, start: int, c: ScriptedCall, cs: seq<ScriptedCall>)
    requires 0 <= start && |h| >= start + 2
    requires c.outcome.Returned?
    requires h[start] == ToolCallRecord(c.call)
    requires h[start + 1] == ToolResult(c.call.id, NormalizeContent(c.outcome.content))
    requires Exchanged(h, start + 2, cs)
    ensures Exchanged(h, start, [c] + cs)
  {
    var all := [c] + cs;
    forall i | 0 <= i < |all|
      ensures all[i].outcome.Returned?
      ensures h[start + 2 * i] == ToolCallRecord(all[i].call)
      ensures h[start + 2 * i + 1] == ToolResult(all[i].call.id, NormalizeContent(all[i].outcome.content))
    {
      if i > 0 {
        assert all[i] == cs[i - 1];
        assert start + 2 * i == start + 2 + 2 * (i - 1);
      }
    }
  }

  /** The query aborts: the error marker is appended and returned. */
  function Abort(h: seq<Message>, connected: bool, e: string, requests: seq<CompletionRequest>, invoked: seq<ToolCall>): Turn {
    Turn(Client(connected, h + [Assistant(ErrorMarker(e))]), Answer(ErrorMarker(e)), requests, invoked)
  }

  /** The query ends with `text`, appended as the assistant's answer and
      returned. */
  function Finish(h: seq<Message>, connected: bool, text: string, requests: seq<CompletionRequest>, invoked: seq<ToolCall>): Turn {
    Turn(Client(connected, h + [Assistant(text)]), Answer(text), requests, invoked)
  }

  /** `process_query(query)` (d1.py:41-112). */
  function ProcessQuery(c: Client, query: string, s: Script): (t: Turn)
    // without a session it raises and nothing changes
    ensures !c.connected ==>
              t.client == c && t.reply == Raised(RuntimeError(NoSessionError))
              && t.requests == [] && t.invoked == []
    // with one it never raises: the user message is appended, everything
    // appended is kept, and the last message is the returned text
    ensures c.connected ==>
              && t.client.connected
              && t.reply.Answer?
              && |t.client.history| >= |c.history| + 2
              && t.client.history[..|c.history| + 1] == c.history + [User(query)]
              && t.client.history[|t.client.history| - 1] == Assistant(t.reply.text)
              && t.reply.text != ""
    // the catalog cannot be listed: no request, only the error marker
    ensures c.connected && s.catalog.Failure? ==>
              t.client.history == c.history + [User(query), Assistant(ErrorMarker(s.catalog.error))]
              && t.reply == Answer(ErrorMarker(s.catalog.error)) && t.requests == [] && t.invoked == []
    // the first request carries the history with the query and the whole catalog
    ensures c.connected && s.catalog.Success? ==>
              && |t.requests| >= 1
              && t.requests[0] == CompletionRequest(ToolModel, ToolModelMaxTokens, c.history + [User(query)],
                                                    Some(Catalog(s.catalog.value)))
    ensures c.connected && s.catalog.Success? && s.first.CompletionRaised? ==>
              t.client.history == c.history + [User(query), Assistant(ErrorMarker(s.first.error))]
              && t.reply == Answer(ErrorMarker(s.first.error)) && |t.requests| == 1 && t.invoked == []
    // no tool calls: the history grows by the user message and the answer
    ensures c.connected && s.catalog.Success? && s.first.Completed? && |s.first.calls| == 0 ==>
              t.client.history == c.history + [User(query), Assistant(OrEmptyReply(s.first.content))]
              && t.reply == Answer(OrEmptyReply(s.first.content)) && |t.requests| == 1 && t.invoked == []
    // tool calls: record/result pairs in request order up to the first
    // failing call, then the final answer or the error marker
    ensures c.connected && s.catalog.Success? && s.first.Completed? && |s.first.calls| > 0 ==>
              var calls := s.first.calls;
              var k := FirstFailure(calls);
              var h' := t.client.history;
              && Exchanged(h'[..|h'| - 1], |c.history| + 1, calls[..k])
              && (k < |calls| ==>
                    && t.reply == Answer(ErrorMarker(calls[k].outcome.error)) && |t.requests| == 1
                    && t.invoked == CallsOf(calls[..k]) + (if calls[k].outcome.CallRaised? then [calls[k].call] else []))
              && (k == |calls| ==>
                    && t.invoked == CallsOf(calls)
                    && |t.requests| == 2
                    && t.requests[1] == CompletionRequest(WrapUpModel, WrapUpMaxTokens, h'[..|h'| - 1], None)
                    && (s.wrapUp.Completed? ==> t.reply == Answer(OrEmptyReply(s.wrapUp.content)))
                    && (s.wrapUp.CompletionRaised? ==> t.reply == Answer(ErrorMarker(s.wrapUp.error))))
  {
    if !c.connected then Turn(c, Raised(RuntimeError(NoSessionError)), [], [])
    else
      var h1 := c.history + [User(query)];
      match s.catalog
      case Failure(e) => Abort(h1, true, e, [], [])
      case Success(tools) =>
        var first := CompletionRequest(ToolModel, ToolModelMaxTokens, h1, Some(Catalog(tools)));
        match s.first
        case CompletionRaised(e) => Abort(h1, true, e, [first], [])
        case Completed(content, calls) =>
          if |calls| == 0 then Finish(h1, true, OrEmptyReply(content), [first], [])
          else ToolRound(h1, first, calls, s.wrapUp)
  }

  /** The tool-call branch of `process_query` (d1.py:68-102, with the
      handler of d1.py:109-112), after `h1` ends in the user message and
      `first` was sent. */
  function ToolRound(h1: seq<Message>, first: CompletionRequest, calls: seq<ScriptedCall>, wrapUp: Completion): (t: Turn)
    ensures t.client.connected && t.reply.Answer? && t.reply.text != ""
    ensures |t.client.history| >= |h1| + 1 && t.client.history[..|h1|] == h1
    ensures t.client.history[|t.client.history| - 1] == Assistant(t.reply.text)
    ensures |t.requests| >= 1 && t.requests[0] == first
    ensures var k := FirstFailure(calls);
            var h' := t.client.history;
            && Exchanged(h'[..|h'| - 1], |h1|, calls[..k])
            && (k < |calls| ==>
                  && t.reply == Answer(ErrorMarker(calls[k].outcome.error)) && |t.requests| == 1
                  && t.invoked == CallsOf(calls[..k]) + (if calls[k].outcome.CallRaised? then [calls[k].call] else []))
            && (k == |calls| ==>
                  && t.invoked == CallsOf(calls)
                  && |t.requests| == 2
                  && t.requests[1] == CompletionRequest(WrapUpModel, WrapUpMaxTokens, h'[..|h'| - 1], None)
                  && (wrapUp.Completed? ==> t.reply == Answer(OrEmptyReply(wrapUp.content)))
                  && (wrapUp.CompletionRaised? ==> t.reply == Answer(ErrorMarker(wrapUp.error))))
  {
    var run := RunCalls(h1, calls);
    var h := run.history;
    match run.error
    case Some(e) =>
      assert (h + [Assistant(ErrorMarker(e))])[..|h|] == h;
      Abort(h, true, e, [first], run.invoked)
    case None =>
      var request := CompletionRequest(WrapUpModel, WrapUpMaxTokens, h, None);
      match wrapUp
      case CompletionRaised(e) =>
        assert (h + [Assistant(ErrorMarker(e))])[..|h|] == h;
        Abort(h, true, e, [first, request], run.invoked)
      case Completed(final, _) =>
        assert (h + [Assistant(OrEmptyReply(final))])[..|h|] == h;
        Finish(h, true, OrEmptyReply(final), [first, request], run.invoked)
  }

  // ---------------------------------------------------------------------
  // reset_conversation

  /** Index of the first system message, if any. */
  function FirstSystem(h: seq<Message>): (k: Option<nat>)
    ensures k.Some? ==> k.value < |h| && h[k.value].System? && forall i :: 0 <= i < k.value ==> !h[i].System?
    ensures k.None? ==> forall i :: 0 <= i < |h| ==> !h[i].System?
    decreases |h|
  {
    if |h| == 0 then None
    else if h[0].System? then Some(0)
    else match FirstSystem(h[1..])
      case None => None
      case Some(k) => Some(k + 1)
  }

  /** `reset_conversation()`: keeps only the first system message (or a
      fresh default one) and returns the confirmation. */
  function ResetConversation(c: Client): (r: (Client, string))
    ensures r.1 == ResetConfirmation
    ensures r.0.connected == c.connected
    ensures WellFormed(r.0.history) && |r.0.history| == 1
    ensures (exists i :: 0 <= i < |c.history| && c.history[i].System?) ==>
              r.0.history[0] in c.history
    ensures FirstSystem(c.history).Some? ==> r.0.history == [c.history[FirstSystem(c.history).value]]
    ensures FirstSystem(c.history).None? ==> r.0.history == NewClient().history
  {
    match FirstSystem(c.history)
    case Some(k) => (c.(history := [c.history[k]]), ResetConfirmation)
    case None => (c.(history := [System(DefaultSystemPrompt)]), ResetConfirmation)
  }

  /** Resetting twice gives the same history and the same confirmation
      as resetting once. */
  lemma ResetIdempotent(c: Client)
    ensures ResetConversation(ResetConversation(c).0) == ResetConversation(c)
  {
    var c1 := ResetConversation(c).0;
    assert FirstSystem(c1.history) == Some(0);
  }

  /** On a well-formed history, reset keeps exactly the system message
      history was seeded with. */
  lemma ResetKeepsSeed(c: Client)
    requires WellFormed(c.history)
    ensures ResetConversation(c).0.history == [c.history[0]]
  {
    assert FirstSystem(c.history) == Some(0);
  }

  /** `process_query` only appends non-system messages, so it keeps the
      history well formed. */
  lemma {:induction false} ProcessQueryKeepsWellFormed(c: Client, query: string, s: Script)
    requires WellFormed(c.history)
    ensures WellFormed(ProcessQuery(c, query, s).client.history)
  {
    var t := ProcessQuery(c, query, s);
    var h := c.history;
    var h' := t.client.history;
    if c.connected {
      NoSystemAppended(h, query, s);
      forall i | 1 <= i < |h'| ensures !h'[i].System? {
        if i < |h| { assert h'[i] == h'[..|h| + 1][i]; }
      }
      assert h'[0] == h'[..|h| + 1][0];
    }
  }

  /** Everything a connected query appends after the user message is an
      assistant or tool message. */
  lemma {:induction false} NoSystemAppended(h: seq<Message>, query: string, s: Script)
    ensures var h' := ProcessQuery(Client(true, h), query, s).client.history;
            forall i :: |h| <= i < |h'| ==> !h'[i].System?
  {
    var h' := ProcessQuery(Client(true, h), query, s).client.history;
    var h1 := h + [User(query)];
    if s.catalog.Success? && s.first.Completed? && |s.first.calls| > 0 {
      var calls := s.first.calls;
      var k := FirstFailure(calls);
      var mid := h'[..|h'| - 1];
      assert Exchanged(mid, |h1|, calls[..k]);
      ExchangedNoSystem(mid, |h1|, calls[..k]);
      forall i | |h| <= i < |h'| ensures !h'[i].System? {
        if i == |h| {
          assert h'[i] == h'[..|h| + 1][i];
        } else if i < |h'| - 1 {
          assert h'[i] == mid[i];
        }
      }
    }
  }

  /** An exchange holds only call records and tool results. */
  lemma {:induction false} ExchangedNoSystem(h: seq<Message>, start: int, calls: seq<ScriptedCall>)
    requires Exchanged(h, start, calls)
    ensures forall i :: start <= i < |h| ==> !h[i].System?
  {
    forall i | start <= i < |h| ensures !h[i].System? {
      var j := (i - start) / 2;
      assert 0 <= j < |calls|;
      assert calls[j].outcome.Returned?;
      assert i == start + 2 * j || i == start + 2 * j + 1;
    }
  }

  // ---------------------------------------------------------------------
  // A session: a sequence of engine operations

  datatype Operation = Query(text: string, script: Script) | Reset

  /** The client after performing `ops` in order. */
  function Perform(c: Client, ops: seq<Operation>): Client
    decreases |ops|
  {
    if |ops| == 0 then c else Perform(Step(c, ops[0]), ops[1..])
  }

  /** The client after one operation. */
  function Step(c: Client, op: Operation): Client {
    match op
    case Query(q, s) => ProcessQuery(c, q, s).client
    case Reset => ResetConversation(c).0
  }

  /** One query or reset keeps the history well formed and its seed. */
  lemma {:induction false} StepKeepsSeed(c: Client, op: Operation)
    requires WellFormed(c.history)
    ensures WellFormed(Step(c, op).history)
    ensures Step(c, op).history[0] == c.history[0]
  {
    match op
    case Query(q, s) =>
      var t := ProcessQuery(c, q, s);
      ProcessQueryKeepsWellFormed(c, q, s);
      if c.connected { assert t.client.history[0] == t.client.history[..|c.history| + 1][0]; }
    case Reset =>
      ResetKeepsSeed(c);
  }

  /** However many queries and resets a fresh client goes through, its
      history starts with exactly one system message, the seeded one. */
  lemma {:induction false} SessionKeepsSeed(c: Client, ops: seq<Operation>)
    requires WellFormed(c.history)
    ensures WellFormed(Perform(c, ops).history)
    ensures Perform(c, ops).history[0] == c.history[0]
    decreases |ops|
  {
    if |ops| > 0 {
      StepKeepsSeed(c, ops[0]);
      SessionKeepsSeed(Step(c, ops[0]), ops[1..]);
    }
  }
}
