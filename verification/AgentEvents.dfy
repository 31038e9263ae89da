/** Stream events as the JSON objects that travel in `chat_event` notifications. */
module AgentEvents {
  import opened JsonValue
  import opened Wrappers
  import opened AgentProtocol

  datatype StopReason = EndTurn | ToolUse | MaxTokens | Errored | Cancelled | Refusal

  datatype ToolStatus = Pending | Running | Completed | Failed

  datatype StreamEvent =
    | ContentDelta(text: string)
    | ReasoningDelta(text: string)
    | ToolCall(id: string, name: string, arguments: string)
    | ToolCallUpdate(id: string, status: ToolStatus, outcome: Option<string>)
    | Usage(inputTokens: U32, outputTokens: U32)
    | Done(stopReason: StopReason)
    | Error(message: string)
    | PermissionRequest(requestId: U64, toolCallId: string, title: string, rawInput: string,
                        options: seq<(string, string)>)

  function StopName(r: StopReason): string {
    match r
    case EndTurn => "end_turn"
    case ToolUse => "tool_use"
    case MaxTokens => "max_tokens"
    case Errored => "error"
    case Cancelled => "cancelled"
    case Refusal => "refusal"
  }

  function StatusName(s: ToolStatus): string {
    match s
    case Pending => "pending"
    case Running => "running"
    case Completed => "completed"
    case Failed => "failed"
  }

  function OptionsJson(options: seq<(string, string)>): seq<Json> {
    seq(|options|, i requires 0 <= i < |options| => Arr([Str(options[i].0), Str(options[i].1)]))
  }

  function ToJson(e: StreamEvent): Json {
    match e
    case ContentDelta(text) => Obj(map["type" := Str("content_delta"), "text" := Str(text)])
    case ReasoningDelta(text) => Obj(map["type" := Str("reasoning_delta"), "text" := Str(text)])
    case ToolCall(id, name, arguments) =>
      Obj(map["type" := Str("tool_call"), "id" := Str(id), "name" := Str(name), "arguments" := Str(arguments)])
    case ToolCallUpdate(id, status, outcome) =>
      var fields := map["type" := Str("tool_call_update"), "id" := Str(id), "status" := Str(StatusName(status))];
      Obj(if outcome.Some? then fields["result" := Str(outcome.value)] else fields)
    case Usage(inputTokens, outputTokens) =>
      Obj(map["type" := Str("usage"), "input_tokens" := Int(inputTokens), "output_tokens" := Int(outputTokens)])
    case Done(stopReason) => Obj(map["type" := Str("done"), "stop_reason" := Str(StopName(stopReason))])
    case Error(message) => Obj(map["type" := Str("error"), "message" := Str(message)])
    case PermissionRequest(requestId, toolCallId, title, rawInput, options) =>
      Obj(map["type" := Str("permission_request"), "request_id" := Int(requestId), "tool_call_id" := Str(toolCallId),
              "title" := Str(title), "raw_input" := Str(rawInput), "options" := Arr(OptionsJson(options))])
  }

  // ---- reading events back ------------------------------------------------------------------

  function StrAt(v: Json, key: string): Option<string> {
    AsStr(Get(v, key))
  }

  /** A non-negative integer below `limit`. */
  function UintAt(v: Json, key: string, limit: int): (r: Option<nat>)
    ensures r.Some? ==> r.value < limit
  {
    var n := Get(v, key);
    if n.Some? && n.value.Int? && 0 <= n.value.n < limit then Some(n.value.n) else None
  }

  function StopOf(name: string): Option<StopReason> {
    if name == "end_turn" then Some(EndTurn)
    else if name == "tool_use" then Some(ToolUse)
    else if name == "max_tokens" then Some(MaxTokens)
    else if name == "error" then Some(Errored)
    else if name == "cancelled" then Some(Cancelled)
    else if name == "refusal" then Some(Refusal)
    else None
  }

  function StatusOf(name: string): Option<ToolStatus> {
    if name == "pending" then Some(Pending)
    else if name == "running" then Some(Running)
    else if name == "completed" then Some(Completed)
    else if name == "failed" then Some(Failed)
    else None
  }

  function OptionsOf(items: seq<Json>): Option<seq<(string, string)>> {
    if items == [] then Some([])
    else
      var rest := OptionsOf(items[1..]);
      if rest.Some? && items[0].Arr? && |items[0].items| == 2 && items[0].items[0].Str? && items[0].items[1].Str?
      then Some([(items[0].items[0].s, items[0].items[1].s)] + rest.value)
      else None
  }

  function ReadToolCall(v: Json): Option<StreamEvent> {
    var id, name, arguments := StrAt(v, "id"), StrAt(v, "name"), StrAt(v, "arguments");
    if id.Some? && name.Some? && arguments.Some? then Some(ToolCall(id.value, name.value, arguments.value)) else None
  }

  /** A missing or null `result` reads as no result. */
  function ReadToolCallUpdate(v: Json): Option<StreamEvent> {
    var id, name, outcome := StrAt(v, "id"), StrAt(v, "status"), OrNull(Get(v, "result"));
    var status := if name.Some? then StatusOf(name.value) else None;
    if id.None? || status.None? then None
    else if outcome.Null? then Some(ToolCallUpdate(id.value, status.value, None))
    else if outcome.Str? then Some(ToolCallUpdate(id.value, status.value, Some(outcome.s)))
    else None
  }

  function ReadUsage(v: Json): Option<StreamEvent> {
    var input, output := UintAt(v, "input_tokens", 0x1_0000_0000), UintAt(v, "output_tokens", 0x1_0000_0000);
    if input.Some? && output.Some? then Some(Usage(input.value, output.value))
    else None
  }

  function ReadDone(v: Json): Option<StreamEvent> {
    var name := StrAt(v, "stop_reason");
    var reason := if name.Some? then StopOf(name.value) else None;
    if reason.Some? then Some(Done(reason.value)) else None
  }

  function ReadPermissionRequest(v: Json): Option<StreamEvent> {
    var id, call := UintAt(v, "request_id", 0x1_0000_0000_0000_0000), StrAt(v, "tool_call_id");
    var title, input := StrAt(v, "title"), StrAt(v, "raw_input");
    var items := OrNull(Get(v, "options"));
    var options := if items.Arr? then OptionsOf(items.items) else None;
    if id.Some? && call.Some? && title.Some? && input.Some? && options.Some?
    then Some(PermissionRequest(id.value, call.value, title.value, input.value, options.value))
    else None
  }

  function FromJson(v: Json): Option<StreamEvent> {
    var kind := StrAt(v, "type");
    if kind.None? then None
    else if kind.value == "content_delta" then
      var text := StrAt(v, "text");
      if text.Some? then Some(ContentDelta(text.value)) else None
    else if kind.value == "reasoning_delta" then
      var text := StrAt(v, "text");
      if text.Some? then Some(ReasoningDelta(text.value)) else None
    else if kind.value == "tool_call" then ReadToolCall(v)
    else if kind.value == "tool_call_update" then ReadToolCallUpdate(v)
    else if kind.value == "usage" then ReadUsage(v)
    else if kind.value == "done" then ReadDone(v)
    else if kind.value == "error" then
      var message := StrAt(v, "message");
      if message.Some? then Some(Error(message.value)) else None
    else if kind.value == "permission_request" then ReadPermissionRequest(v)
    else None
  }

  lemma {:induction false} OptionsBack(options: seq<(string, string)>)
    ensures OptionsOf(OptionsJson(options)) == Some(options)
  {
    if options != [] {
      assert OptionsJson(options)[1..] == OptionsJson(options[1..]);
      OptionsBack(options[1..]);
      assert [options[0]] + options[1..] == options;
    }
  }

  function Kind(e: StreamEvent): string {
    match e
    case ContentDelta(_) => "content_delta"
    case ReasoningDelta(_) => "reasoning_delta"
    case ToolCall(_, _, _) => "tool_call"
    case ToolCallUpdate(_, _, _) => "tool_call_update"
    case Usage(_, _) => "usage"
    case Done(_) => "done"
    case Error(_) => "error"
    case PermissionRequest(_, _, _, _, _) => "permission_request"
  }

  lemma FieldsDiffer()
    ensures "type" != "text" && "type" != "name" && "status" != "result"
    ensures "tool_call_id" != "input_tokens" && "request_id" != "stop_reason"
  {
  }

  lemma TypeOf(e: StreamEvent)
    ensures StrAt(ToJson(e), "type") == Some(Kind(e))
  {
  }

  lemma ToolsBack(e: StreamEvent)
    ensures e.ToolCall? ==> ReadToolCall(ToJson(e)) == Some(e)
    ensures e.ToolCallUpdate? ==> ReadToolCallUpdate(ToJson(e)) == Some(e)
  {
  }

  lemma PermissionBack(e: StreamEvent)
    requires e.PermissionRequest?
    ensures ReadPermissionRequest(ToJson(e)) == Some(e)
  {
    FieldsDiffer();
    OptionsBack(e.options);
  }

  lemma OthersBack(e: StreamEvent)
    ensures e.Usage? ==> ReadUsage(ToJson(e)) == Some(e)
    ensures e.Done? ==> ReadDone(ToJson(e)) == Some(e)
  {
  }

  /** Every stream event is read back from its JSON form. */
  lemma EventRoundTrip(e: StreamEvent)
    ensures FromJson(ToJson(e)) == Some(e)
  {
    TypeOf(e);
    ToolsBack(e);
    OthersBack(e);
    if e.PermissionRequest? {
      PermissionBack(e);
    }
  }

  /** The names of stop reasons on the wire. */
  lemma StopNames()
    ensures Get(ToJson(Done(EndTurn)), "stop_reason") == Some(Str("end_turn"))
    ensures Get(ToJson(Done(ToolUse)), "stop_reason") == Some(Str("tool_use"))
    ensures Get(ToJson(Done(MaxTokens)), "stop_reason") == Some(Str("max_tokens"))
    ensures Get(ToJson(Done(Errored)), "stop_reason") == Some(Str("error"))
    ensures Get(ToJson(Done(Cancelled)), "stop_reason") == Some(Str("cancelled"))
    ensures Get(ToJson(Done(Refusal)), "stop_reason") == Some(Str("refusal"))
  {
  }

  /** The names of tool states on the wire. */
  lemma StatusNames(id: string)
    ensures Get(ToJson(ToolCallUpdate(id, Pending, None)), "status") == Some(Str("pending"))
    ensures Get(ToJson(ToolCallUpdate(id, Running, None)), "status") == Some(Str("running"))
    ensures Get(ToJson(ToolCallUpdate(id, Completed, None)), "status") == Some(Str("completed"))
    ensures Get(ToJson(ToolCallUpdate(id, Failed, None)), "status") == Some(Str("failed"))
  {
  }
}
